/**
 * The parametric curve object: its settings with the constructor's defaults,
 * the setters the editor calls, and makeVertsAndFaces, which samples the
 * curve, computes the frame normals and dispatches on the shape mode to the
 * box, tube or custom tessellation.
 *
 * The curve's functions x, dx, y, dy, z, dz enter as two abstract functions
 * of t: its speed |r'(t)| and its tangent r'(t). Math.Round and the
 * squared-sine blending curve are parameters of the constructor. Arrays and
 * lists the source may leave null (the node normals, the custom profile and
 * cap) start out empty.
 */
module Curve {
  import opened Common
  import CurveSteps
  import StepNormals
  import Tessellation

  /** The shape switch: 0 the box, 1 the tube, anything else the custom profile. */
  function ShapeOf(shapeMode: int): Tessellation.Shape
  {
    if shapeMode == 0 then Tessellation.BoxShape
    else if shapeMode == 1 then Tessellation.TubeShape
    else Tessellation.CustomShape
  }

  /** The custom cap's corner count and triangle list; the box and tube have none. */
  function CapCountOf(shapeMode: int, capCount: nat): nat
  {
    if ShapeOf(shapeMode) == Tessellation.CustomShape then capCount else 0
  }

  function CapTrianglesOf(shapeMode: int, capTriangles: seq<int>): seq<int>
  {
    if ShapeOf(shapeMode) == Tessellation.CustomShape then capTriangles else []
  }

  /** Every setting of the curve object, as one value. */
  datatype Settings = Settings(
    speed: real -> real, tangent: real -> Vec3, theta: real -> real, round: real -> real, blend: real -> real,
    lower: real, upper: real, step: real, evenStepLength: bool, stepLength: real,
    normals: seq<Vec3>, angleInterpolationMode: int,
    width: real, widthStep: real, height: real, innerRadius: real, outerRadius: real,
    customPoints: seq<Vec2>, customUVs: seq<(real, real)>, customNormals: seq<(Vec2, Vec2)>,
    capVertices: seq<Vec3>, capUV: seq<Vec2>, capTriangles: seq<int>,
    divisions: int, widthOffset: real, heightOffset: real, faces: Tessellation.Faces,
    roundLength: int, uvScale: Vec3, uvOffset: Vec3, shapeMode: int)

  /** The constructor's settings for the given curve functions. */
  function Defaults(speed: real -> real, tangent: real -> Vec3, theta: real -> real,
                    round: real -> real, blend: real -> real): Settings
  {
    Settings(speed, tangent, theta, round, blend,
             0.0, 2.05, 0.1, true, 1.0,
             [], 1,
             4.0, 1.0, 2.0, 4.0, 5.0,
             [], [], [],
             [], [], [],
             32, 0.0, 0.0, Tessellation.Faces(true, true, true, true, true, true),
             4, Vec3(1.0, 1.0, 1.0), Vec3(0.0, 0.0, 0.0), 1)
  }

  /** The resampling getTSteps performs with these settings. */
  function PlanOf(s: Settings): CurveSteps.Resampling
    requires s.lower <= s.upper
  {
    CurveSteps.Plan(s.speed, s.round, s.lower, s.upper, s.stepLength, s.roundLength)
  }

  /** What GetStepNormals reads, for the given t steps. */
  function FramesOf(s: Settings, tSteps: seq<real>): StepNormals.Frames
  {
    StepNormals.Frames(tSteps, s.normals, s.tangent, s.blend, s.angleInterpolationMode)
  }

  /**
   * What makeVertsAndFaces needs of the settings: even, positive step
   * lengths on a non-empty t range, enough node normals for the divisions, a
   * width step that ends the width loop, at least one tube ring point, and a
   * custom profile with a UV and a normal pair per point and a well-formed
   * cap mesh with a UV per corner.
   */
  predicate Ready(s: Settings)
  {
    s.evenStepLength && s.lower < s.upper && s.stepLength > 0.0
    && StepNormals.Valid(FramesOf(s, CurveSteps.Resample(PlanOf(s)).0))
    && (s.shapeMode == 0 ==> s.widthStep > 0.0 || s.width - CurveSteps.Epsilon <= 0.0)
    && (s.shapeMode == 1 ==> s.divisions >= 0)
    && (ShapeOf(s.shapeMode) == Tessellation.CustomShape ==>
          && |s.customPoints| >= 1
          && |s.customUVs| >= |s.customPoints| && |s.customNormals| >= |s.customPoints|
          && Tessellation.CapMesh(s.capTriangles, |s.capVertices|) && |s.capUV| >= |s.capVertices|)
  }

  /**
   * The mesh makeVertsAndFaces leaves for these settings: a grid of the shape
   * the mode selects, with one row per resampled t step and, as columns, the
   * box's width samples, the tube's divisions + 1 ring points or the custom
   * profile's points, meshed by that shape's routine.
   */
  ghost predicate Built(s: Settings, g: Tessellation.Sweep, widthSteps: seq<real>,
                        vertices: array<Tessellation.Vertex>, triangles: array<int>)
    reads vertices, triangles
  {
    s.lower < s.upper
    && g.shape == ShapeOf(s.shapeMode) && g.faces == s.faces
    && g.steps == |CurveSteps.Resample(PlanOf(s)).0|
    && (s.shapeMode == 0 ==> CurveSteps.WidthSamples(widthSteps, s.width, s.widthStep) && g.columns == |widthSteps|)
    && (s.shapeMode == 1 ==> g.columns == s.divisions + 1)
    && (g.shape == Tessellation.CustomShape ==> g.columns == |s.customPoints|)
    && Tessellation.Meshed(g, CapCountOf(s.shapeMode, |s.capVertices|), CapTrianglesOf(s.shapeMode, s.capTriangles),
                           vertices, triangles)
  }

  /**
   * The first half of every routine: getTSteps on the curve's t range, then
   * GetStepNormals on those t steps and the node normals.
   */
  method StepsAndNormals(s: Settings) returns (tSteps: seq<real>, stepNormals: array<Vec3>)
    requires Ready(s)
    ensures tSteps == CurveSteps.Resample(PlanOf(s)).0
    ensures |tSteps| >= 2 && tSteps[0] == s.lower && tSteps[|tSteps| - 1] == s.upper
    ensures fresh(stepNormals) && stepNormals.Length == |tSteps|
    ensures forall j :: 0 <= j < |tSteps| ==> stepNormals[j] == StepNormals.NormalAt(FramesOf(s, tSteps), j)
  {
    var lastUVAdjustment;
    tSteps, lastUVAdjustment := CurveSteps.TSteps(s.speed, s.round, s.lower, s.upper, s.stepLength, s.roundLength);
    stepNormals := StepNormals.GetStepNormals(FramesOf(s, tSteps));
  }

  /**
   * The shape switch of makeVertsAndFaces, on the grid of the resampled t
   * steps: the box on its width samples, the tube on divisions + 1 ring
   * points, the custom profile on its points and with its cap.
   */
  method Dispatch(s: Settings, steps: nat)
    returns (g: Tessellation.Sweep, vertices: array<Tessellation.Vertex>, triangles: array<int>, ghost widthSteps: seq<real>)
    requires Ready(s) && steps == |CurveSteps.Resample(PlanOf(s)).0| && steps >= 2
    ensures fresh(vertices) && fresh(triangles)
    ensures Built(s, g, widthSteps, vertices, triangles)
  {
    widthSteps := [];
    if s.shapeMode == 0 {
      var widthStepList := CurveSteps.WidthSteps(s.width, s.widthStep);
      widthSteps := widthStepList;
      g := Tessellation.Sweep(Tessellation.BoxShape, s.faces, steps, |widthStepList|);
      vertices, triangles := Tessellation.SweepMesh(g);
    } else if s.shapeMode == 1 {
      g := Tessellation.Sweep(Tessellation.TubeShape, s.faces, steps, s.divisions + 1);
      vertices, triangles := Tessellation.SweepMesh(g);
    } else {
      g := Tessellation.Sweep(Tessellation.CustomShape, s.faces, steps, |s.customPoints|);
      vertices, triangles := Tessellation.CustomMesh(g, |s.capVertices|, s.capTriangles);
    }
  }

  /** makeVertsAndFaces on these settings: the t steps and their normals, then the shape's routine. */
  method Generate(s: Settings)
    returns (g: Tessellation.Sweep, vertices: array<Tessellation.Vertex>, triangles: array<int>, ghost widthSteps: seq<real>)
    requires Ready(s)
    ensures fresh(vertices) && fresh(triangles)
    ensures Built(s, g, widthSteps, vertices, triangles)
  {
    var stepList, stepNormals := StepsAndNormals(s);
    g, vertices, triangles, widthSteps := Dispatch(s, |stepList|);
  }

  class ParametricCurve {
    var speed: real -> real
    var tangent: real -> Vec3
    var theta: real -> real
    var round: real -> real
    var blend: real -> real

    var lower: real
    var upper: real
    var step: real
    var evenStepLength: bool
    var stepLength: real

    var normals: seq<Vec3>
    var angleInterpolationMode: int

    var width: real
    var widthStep: real
    var height: real
    var innerRadius: real
    var outerRadius: real

    var customPoints: seq<Vec2>
    var customUVs: seq<(real, real)>
    var customNormals: seq<(Vec2, Vec2)>
    var capVertices: seq<Vec3>
    var capUV: seq<Vec2>
    var capTriangles: seq<int>

    var divisions: int
    var widthOffset: real
    var heightOffset: real
    var faces: Tessellation.Faces
    var roundLength: int
    var uvScale: Vec3
    var uvOffset: Vec3
    var shapeMode: int

    /** The mesh of the last makeVertsAndFaces: each vertex tagged with what it was produced for. */
    var vertices: array?<Tessellation.Vertex>
    var triangles: array?<int>

    /** The grid the last mesh was built on, and the box's width samples. */
    ghost var sweep: Tessellation.Sweep
    ghost var widthSteps: seq<real>

    function Current(): Settings
      reads this`speed, this`tangent, this`theta, this`round, this`blend, this`lower, this`upper, this`step,
            this`evenStepLength, this`stepLength, this`normals, this`angleInterpolationMode, this`width,
            this`widthStep, this`height, this`innerRadius, this`outerRadius, this`customPoints,
            this`customUVs, this`customNormals, this`capVertices, this`capUV, this`capTriangles,
            this`divisions, this`widthOffset, this`heightOffset, this`faces, this`roundLength, this`uvScale,
            this`uvOffset, this`shapeMode
    {
      Settings(speed, tangent, theta, round, blend,
               lower, upper, step, evenStepLength, stepLength,
               normals, angleInterpolationMode,
               width, widthStep, height, innerRadius, outerRadius,
               customPoints, customUVs, customNormals,
               capVertices, capUV, capTriangles,
               divisions, widthOffset, heightOffset, faces,
               roundLength, uvScale, uvOffset, shapeMode)
    }

    constructor(speed: real -> real, tangent: real -> Vec3, theta: real -> real,
                round: real -> real, blend: real -> real)
      ensures Current() == Defaults(speed, tangent, theta, round, blend)
      ensures vertices == null && triangles == null
    {
      this.speed, this.tangent, this.theta, this.round, this.blend := speed, tangent, theta, round, blend;
      lower, upper, step := 0.0, 2.05, 0.1;
      width, widthStep, height := 4.0, 1.0, 2.0;
      innerRadius, outerRadius, divisions := 4.0, 5.0, 32;
      angleInterpolationMode := 1;
      evenStepLength, stepLength := true, 1.0;
      uvScale, uvOffset := Vec3(1.0, 1.0, 1.0), Vec3(0.0, 0.0, 0.0);
      widthOffset, heightOffset := 0.0, 0.0;
      faces := Tessellation.Faces(true, true, true, true, true, true);
      roundLength := 4;
      shapeMode := 1;
      normals, customPoints, customUVs, customNormals := [], [], [], [];
      capVertices, capUV, capTriangles := [], [], [];
      vertices, triangles := null, null;
    }

    method SetShape(shapeMode: int)
      modifies this`shapeMode
      ensures this.shapeMode == shapeMode
    {
      this.shapeMode := shapeMode;
    }

    method SetAngleInterpolationMode(angleInterpolationMode: int)
      modifies this`angleInterpolationMode
      ensures this.angleInterpolationMode == angleInterpolationMode
    {
      this.angleInterpolationMode := angleInterpolationMode;
    }

    method SetNormals(normals: seq<Vec3>)
      modifies this`normals
      ensures this.normals == normals
    {
      this.normals := normals;
    }

    method SetTheta(theta: real -> real)
      modifies this`theta
      ensures this.theta == theta
    {
      this.theta := theta;
    }

    method SetTRange(lower: real, upper: real)
      modifies this`lower, this`upper
      ensures this.lower == lower && this.upper == upper
    {
      this.lower, this.upper := lower, upper;
    }

    method SetStepLength(length: real)
      modifies this`stepLength
      ensures this.stepLength == length
    {
      stepLength := length;
    }

    method SetBoxSize(width: real, widthStep: real, height: real)
      modifies this`width, this`widthStep, this`height
      ensures this.width == width && this.widthStep == widthStep && this.height == height
    {
      this.width, this.widthStep, this.height := width, widthStep, height;
    }

    method SetRadius(innerRadius: real, outerRadius: real)
      modifies this`innerRadius, this`outerRadius
      ensures this.innerRadius == innerRadius && this.outerRadius == outerRadius
    {
      this.innerRadius, this.outerRadius := innerRadius, outerRadius;
    }

    /** The custom profile and its cap mesh: vertices, UVs and triangle list. */
    method SetCustom(customPoints: seq<Vec2>, customUVs: seq<(real, real)>, customNormals: seq<(Vec2, Vec2)>,
                     customCap: (seq<Vec3>, seq<Vec2>, seq<int>))
      modifies this`customPoints, this`customUVs, this`customNormals, this`capVertices, this`capUV, this`capTriangles
      ensures this.customPoints == customPoints && this.customUVs == customUVs && this.customNormals == customNormals
      ensures capVertices == customCap.0 && capUV == customCap.1 && capTriangles == customCap.2
    {
      this.customPoints, this.customUVs, this.customNormals := customPoints, customUVs, customNormals;
      capVertices, capUV, capTriangles := customCap.0, customCap.1, customCap.2;
    }

    method SetDivisions(divisions: int)
      modifies this`divisions
      ensures this.divisions == divisions
    {
      this.divisions := divisions;
    }

    method SetOffset(widthOffset: real, heightOffset: real)
      modifies this`widthOffset, this`heightOffset
      ensures this.widthOffset == widthOffset && this.heightOffset == heightOffset
    {
      this.widthOffset, this.heightOffset := widthOffset, heightOffset;
    }

    method SetRound(round: int)
      modifies this`roundLength
      ensures this.roundLength == round
    {
      roundLength := round;
    }

    method SetUVScale(uvScale: Vec3)
      modifies this`uvScale
      ensures this.uvScale == uvScale
    {
      this.uvScale := uvScale;
    }

    method SetUVOffset(uvOffset: Vec3)
      modifies this`uvOffset
      ensures this.uvOffset == uvOffset
    {
      this.uvOffset := uvOffset;
    }

    method SetFaces(top: bool, bottom: bool, left: bool, right: bool, start: bool, end: bool)
      modifies this`faces
      ensures this.faces == Tessellation.Faces(top, bottom, left, right, start, end)
    {
      faces := Tessellation.Faces(top, bottom, left, right, start, end);
    }

    /**
     * makeVertsAndFaces: the t steps and their normals, then the routine of
     * the shape mode on a grid of |t steps| rows and, as columns, the box's
     * width samples, the tube's divisions + 1 ring points, or the custom
     * profile's points. The settings stay as they were.
     */
    method MakeVertsAndFaces()
      requires Ready(Current())
      modifies this`vertices, this`triangles, this`sweep, this`widthSteps
      ensures vertices != null && triangles != null && fresh(vertices) && fresh(triangles)
      ensures Built(old(Current()), sweep, widthSteps, vertices, triangles)
    {
      var s := Current();
      var g, vs, tri, ws := Generate(s);
      Store(s, g, ws, vs, tri);
    }

    /** Keeps the built mesh: storing it in the fields leaves the buffers' contents alone. */
    method Store(ghost s: Settings, g: Tessellation.Sweep, ghost ws: seq<real>,
                 vs: array<Tessellation.Vertex>, tri: array<int>)
      requires Built(s, g, ws, vs, tri)
      modifies this`vertices, this`triangles, this`sweep, this`widthSteps
      ensures sweep == g && widthSteps == ws && vertices == vs && triangles == tri
      ensures Built(s, g, ws, vs, tri)
    {
      sweep, widthSteps, vertices, triangles := g, ws, vs, tri;
    }
  }
}

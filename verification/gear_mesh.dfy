/**
 * The integer bookkeeping of the custom-graphics gear: where each vertex of an
 * n-tooth gear lands in the coordinate array, the triangle index list built over
 * those vertices, and the strip lengths that cut the index list into line strips.
 *
 * Vertex positions come from floating-point rotations; the model takes them from a
 * generator `at(ring, i)` (the rotated x and y of position `i` on `ring`) over an
 * abstract coordinate type `R`, and never computes with them.
 */
module GearMesh {
  import opened Wrappers
  import opened Seqs

  /** The four rings of gear vertices, in the order their coordinates are emitted. */
  datatype Ring = Root | Hole | Pitch | Outside

  /** Positions on a ring: two per tooth, except one per tooth on the outside ring. */
  function RingSize(n: nat, r: Ring): nat
  {
    if r == Outside then n else 2 * n
  }

  /** Index of the first vertex of a ring; every position emits two vertices. */
  function RingBase(n: nat, r: Ring): nat
  {
    match r
    case Root => 0
    case Hole => 4 * n
    case Pitch => 8 * n
    case Outside => 12 * n
  }

  /** The RGBA colour given to every vertex of a ring. */
  function RingColor(r: Ring): seq<int>
  {
    match r
    case Root => [255, 0, 255, 128]
    case Hole => [255, 0, 0, 128]
    case Pitch => [0, 0, 255, 128]
    case Outside => [0, 255, 255, 128]
  }

  /** Vertex indices of one ring: `bottom` on the z = 0 face, `top` on the z = thickness face. */
  datatype RingIndices = RingIndices(bottom: seq<int>, top: seq<int>)

  datatype GearIndices = GearIndices(root: RingIndices, hole: RingIndices, pitch: RingIndices, outside: RingIndices)
  {
    function Of(r: Ring): RingIndices
    {
      match r
      case Root => root
      case Hole => hole
      case Pitch => pitch
      case Outside => outside
    }
  }

  /** Everything `calculateCoordinates` produces. */
  datatype GearVertices<R> = GearVertices(indices: GearIndices, coords: seq<R>, colors: seq<int>)

  function NoRing(): RingIndices { RingIndices([], []) }

  function NoVertices<R>(): GearVertices<R>
  {
    GearVertices(GearIndices(NoRing(), NoRing(), NoRing(), NoRing()), [], [])
  }

  /** The coordinates ring `r` emits for its first `k` positions: a bottom and a top vertex each. */
  function RingCoords<R>(r: Ring, at: (Ring, nat) -> (R, R), zero: R, thickness: R, k: nat): (c: seq<R>)
    ensures |c| == 6 * k
  {
    if k == 0 then []
    else RingCoords(r, at, zero, thickness, k - 1) + [at(r, k - 1).0, at(r, k - 1).1, zero, at(r, k - 1).0, at(r, k - 1).1, thickness]
  }

  /** The colours ring `r` emits for its first `k` positions. */
  function RingColors(r: Ring, k: nat): (c: seq<int>)
    ensures |c| == 8 * k
  {
    if k == 0 then [] else RingColors(r, k - 1) + RingColor(r) + RingColor(r)
  }

  /** Ring `r`'s index arrays: position `i` owns vertices `base + 2i` (bottom) and `base + 2i + 1` (top). */
  predicate RingNumbered(n: nat, r: Ring, ind: RingIndices)
  {
    && |ind.bottom| == RingSize(n, r)
    && |ind.top| == RingSize(n, r)
    && forall i :: 0 <= i < RingSize(n, r) ==>
         ind.bottom[i] == RingBase(n, r) + 2 * i && ind.top[i] == ind.bottom[i] + 1
  }

  /** The full layout of an `n`-tooth gear: the four rings one after another. */
  ghost predicate GearLaidOut<R>(n: nat, g: GearVertices<R>, at: (Ring, nat) -> (R, R), zero: R, thickness: R)
  {
    && RingNumbered(n, Root, g.indices.root)
    && RingNumbered(n, Hole, g.indices.hole)
    && RingNumbered(n, Pitch, g.indices.pitch)
    && RingNumbered(n, Outside, g.indices.outside)
    && CoordsLaidOut(n, g.coords, at, zero, thickness)
    && ColorsLaidOut(n, g.colors)
  }

  /** The coordinates of the four rings, one ring after another. */
  ghost predicate CoordsLaidOut<R>(n: nat, coords: seq<R>, at: (Ring, nat) -> (R, R), zero: R, thickness: R)
  {
    coords == RingCoords(Root, at, zero, thickness, 2 * n) + RingCoords(Hole, at, zero, thickness, 2 * n)
              + RingCoords(Pitch, at, zero, thickness, 2 * n) + RingCoords(Outside, at, zero, thickness, n)
  }

  /** The colours of the four rings, one ring after another. */
  predicate ColorsLaidOut(n: nat, colors: seq<int>)
  {
    colors == RingColors(Root, 2 * n) + RingColors(Hole, 2 * n) + RingColors(Pitch, 2 * n) + RingColors(Outside, n)
  }

  /** The three coordinates of vertex `k`. */
  function Vertex<R>(coords: seq<R>, k: nat): seq<R>
    requires 3 * k + 3 <= |coords|
  {
    coords[3 * k .. 3 * k + 3]
  }

  /** The four colour components of vertex `k`. */
  function VertexColor(colors: seq<int>, k: nat): seq<int>
    requires 4 * k + 4 <= |colors|
  {
    colors[4 * k .. 4 * k + 4]
  }

  lemma PrefixSlice<T>(a: seq<T>, b: seq<T>, lo: nat, hi: nat)
    requires lo <= hi <= |a|
    ensures (a + b)[lo..hi] == a[lo..hi]
  {
  }

  lemma AppendedSlices<T>(a: seq<T>, x: seq<T>, y: seq<T>)
    ensures (a + x + y)[|a| .. |a| + |x|] == x
    ensures (a + x + y)[|a| + |x| .. |a| + |x| + |y|] == y
  {
    assert (a + x + y)[|a| .. |a| + |x|] == x;
  }

  lemma AppendAssoc<T>(a: seq<T>, b: seq<T>, c: seq<T>)
    ensures a + b + c == a + (b + c)
  {
  }

  /** Within a ring, position `i` is the pair of vertices `2i` (at z = zero) and `2i + 1` (at z = thickness). */
  lemma {:induction false} RingCoordsEntries<R>(r: Ring, at: (Ring, nat) -> (R, R), zero: R, thickness: R, k: nat, i: nat)
    requires i < k
    ensures RingCoords(r, at, zero, thickness, k)[6 * i .. 6 * i + 3] == [at(r, i).0, at(r, i).1, zero]
    ensures RingCoords(r, at, zero, thickness, k)[6 * i + 3 .. 6 * i + 6] == [at(r, i).0, at(r, i).1, thickness]
  {
    var prev := RingCoords(r, at, zero, thickness, k - 1);
    var six := [at(r, k - 1).0, at(r, k - 1).1, zero, at(r, k - 1).0, at(r, k - 1).1, thickness];
    assert RingCoords(r, at, zero, thickness, k) == prev + six;
    if i < k - 1 {
      RingCoordsEntries(r, at, zero, thickness, k - 1, i);
      PrefixSlice(prev, six, 6 * i, 6 * i + 3);
      PrefixSlice(prev, six, 6 * i + 3, 6 * i + 6);
    } else {
      LastSix(prev, six);
    }
  }

  lemma LastSix<R>(prev: seq<R>, six: seq<R>)
    requires |six| == 6
    ensures (prev + six)[|prev| .. |prev| + 3] == six[..3]
    ensures (prev + six)[|prev| + 3 .. |prev| + 6] == six[3..]
  {
    assert (prev + six)[|prev| .. |prev| + 3] == six[..3];
    assert (prev + six)[|prev| + 3 .. |prev| + 6] == six[3..];
  }

  lemma {:induction false} RingColorsEntries(r: Ring, k: nat, i: nat)
    requires i < k
    ensures RingColors(r, k)[8 * i .. 8 * i + 4] == RingColor(r)
    ensures RingColors(r, k)[8 * i + 4 .. 8 * i + 8] == RingColor(r)
  {
    var prev := RingColors(r, k - 1);
    var color := RingColor(r);
    assert RingColors(r, k) == prev + color + color;
    if i < k - 1 {
      RingColorsEntries(r, k - 1, i);
      PrefixSlice(prev, color + color, 8 * i, 8 * i + 4);
      PrefixSlice(prev, color + color, 8 * i + 4, 8 * i + 8);
      AppendAssoc(prev, color, color);
    } else {
      AppendedSlices(prev, color, color);
    }
  }

  lemma CoordsStep<R>(coords0: seq<R>, r: Ring, at: (Ring, nat) -> (R, R), zero: R, thickness: R, i: nat)
    ensures coords0 + RingCoords(r, at, zero, thickness, i) + [at(r, i).0, at(r, i).1, zero, at(r, i).0, at(r, i).1, thickness]
            == coords0 + RingCoords(r, at, zero, thickness, i + 1)
  {
    AppendAssoc(coords0, RingCoords(r, at, zero, thickness, i), [at(r, i).0, at(r, i).1, zero, at(r, i).0, at(r, i).1, thickness]);
  }

  lemma ColorsStep(colors0: seq<int>, r: Ring, i: nat)
    ensures colors0 + RingColors(r, i) + RingColor(r) + RingColor(r) == colors0 + RingColors(r, i + 1)
  {
    AppendAssoc(colors0 + RingColors(r, i), RingColor(r), RingColor(r));
    AppendAssoc(colors0, RingColors(r, i), RingColor(r) + RingColor(r));
    AppendAssoc(RingColors(r, i), RingColor(r), RingColor(r));
  }

  /**
   * One of the four emission loops of `calculateCoordinates`: for each position of ring `r`,
   * record the next two vertex numbers (coordinate count / 3, and one more), then append
   * the bottom and top vertex and their colours.
   */
  method EmitRing<R>(n: nat, r: Ring, at: (Ring, nat) -> (R, R), zero: R, thickness: R,
                     coords0: seq<R>, colors0: seq<int>)
    returns (ind: RingIndices, coords: seq<R>, colors: seq<int>)
    requires |coords0| == 3 * RingBase(n, r)
    ensures RingNumbered(n, r, ind)
    ensures coords == coords0 + RingCoords(r, at, zero, thickness, RingSize(n, r))
    ensures colors == colors0 + RingColors(r, RingSize(n, r))
  {
    var base := RingBase(n, r);
    ind, coords, colors := NoRing(), coords0, colors0;
    var i := 0;
    while i < RingSize(n, r)
      invariant 0 <= i <= RingSize(n, r)
      invariant coords == coords0 + RingCoords(r, at, zero, thickness, i)
      invariant colors == colors0 + RingColors(r, i)
      invariant |ind.bottom| == i && |ind.top| == i
      invariant forall j :: 0 <= j < i ==> ind.bottom[j] == base + 2 * j && ind.top[j] == ind.bottom[j] + 1
    {
      var (x, y) := at(r, i);
      assert |coords| / 3 == base + 2 * i;
      ind := RingIndices(ind.bottom + [|coords| / 3], ind.top + [|coords| / 3 + 1]);
      CoordsStep(coords0, r, at, zero, thickness, i);
      ColorsStep(colors0, r, i);
      coords := coords + [x, y, zero, x, y, thickness];
      colors := colors + RingColor(r) + RingColor(r);
      i := i + 1;
    }
  }

  /** The emission loops for a gear with at least one tooth. */
  method LayOutGear<R>(n: nat, at: (Ring, nat) -> (R, R), zero: R, thickness: R) returns (g: GearVertices<R>)
    ensures GearLaidOut(n, g, at, zero, thickness)
  {
    var root, hole, pitch, outside: RingIndices;
    var c1, k1, c2, k2, c3, k3, c4, k4;
    root, c1, k1 := EmitRing(n, Root, at, zero, thickness, [], []);
    assert c1 == RingCoords(Root, at, zero, thickness, 2 * n);
    assert k1 == RingColors(Root, 2 * n);
    hole, c2, k2 := EmitRing(n, Hole, at, zero, thickness, c1, k1);
    pitch, c3, k3 := EmitRing(n, Pitch, at, zero, thickness, c2, k2);
    outside, c4, k4 := EmitRing(n, Outside, at, zero, thickness, c3, k3);
    g := GearVertices(GearIndices(root, hole, pitch, outside), c4, k4);
  }

  lemma FourChunks<T>(a: seq<T>, b: seq<T>, c: seq<T>, d: seq<T>)
    ensures (a + b + c + d)[..|a|] == a
    ensures (a + b + c + d)[|a| .. |a| + |b|] == b
    ensures (a + b + c + d)[|a| + |b| .. |a| + |b| + |c|] == c
    ensures (a + b + c + d)[|a| + |b| + |c| ..] == d
  {
    var s := a + b + c + d;
    assert s[..|a|] == a;
    assert s[|a| .. |a| + |b|] == b;
    assert s[|a| + |b| .. |a| + |b| + |c|] == c;
    assert s[|a| + |b| + |c| ..] == d;
  }

  /** In a laid-out gear, ring `r`'s coordinates start at vertex `RingBase(n, r)`. */
  lemma {:induction false} CoordsChunk<R>(n: nat, coords: seq<R>, at: (Ring, nat) -> (R, R), zero: R, thickness: R, r: Ring)
    requires CoordsLaidOut(n, coords, at, zero, thickness)
    ensures |coords| == 42 * n
    ensures coords[3 * RingBase(n, r) .. 3 * RingBase(n, r) + 6 * RingSize(n, r)] == RingCoords(r, at, zero, thickness, RingSize(n, r))
  {
    FourChunks(RingCoords(Root, at, zero, thickness, 2 * n), RingCoords(Hole, at, zero, thickness, 2 * n),
               RingCoords(Pitch, at, zero, thickness, 2 * n), RingCoords(Outside, at, zero, thickness, n));
  }

  /** In a laid-out gear, ring `r`'s colours start at vertex `RingBase(n, r)`. */
  lemma {:induction false} ColorsChunk(n: nat, colors: seq<int>, r: Ring)
    requires ColorsLaidOut(n, colors)
    ensures |colors| == 56 * n
    ensures colors[4 * RingBase(n, r) .. 4 * RingBase(n, r) + 8 * RingSize(n, r)] == RingColors(r, RingSize(n, r))
  {
    FourChunks(RingColors(Root, 2 * n), RingColors(Hole, 2 * n), RingColors(Pitch, 2 * n), RingColors(Outside, n));
  }

  /** A group of `width` entries inside a chunk of a longer sequence. */
  lemma GroupInChunk<T>(s: seq<T>, lo: nat, chunk: seq<T>, width: nat, k: nat, v: seq<T>)
    requires lo + |chunk| <= |s| && s[lo .. lo + |chunk|] == chunk
    requires width * k + width <= |chunk| && chunk[width * k .. width * k + width] == v
    ensures s[lo + width * k .. lo + width * k + width] == v
  {
    assert s[lo .. lo + |chunk|][width * k .. width * k + width] == s[lo + width * k .. lo + width * k + width];
  }

  /** Pair `i` of a chunk of coordinates that starts at vertex `base`. */
  lemma PairOfCoords<T>(s: seq<T>, base: nat, chunk: seq<T>, i: nat, bottom: seq<T>, top: seq<T>)
    requires 3 * base + |chunk| <= |s| && s[3 * base .. 3 * base + |chunk|] == chunk
    requires 6 * i + 6 <= |chunk| && chunk[6 * i .. 6 * i + 3] == bottom && chunk[6 * i + 3 .. 6 * i + 6] == top
    ensures 3 * (base + 2 * i) + 6 <= |s|
    ensures Vertex(s, base + 2 * i) == bottom && Vertex(s, base + 2 * i + 1) == top
  {
    GroupInChunk(s, 3 * base, chunk, 3, 2 * i, bottom);
    GroupInChunk(s, 3 * base, chunk, 3, 2 * i + 1, top);
  }

  /** Pair `i` of a chunk of colours that starts at vertex `base`. */
  lemma PairOfColors(s: seq<int>, base: nat, chunk: seq<int>, i: nat, bottom: seq<int>, top: seq<int>)
    requires 4 * base + |chunk| <= |s| && s[4 * base .. 4 * base + |chunk|] == chunk
    requires 8 * i + 8 <= |chunk| && chunk[8 * i .. 8 * i + 4] == bottom && chunk[8 * i + 4 .. 8 * i + 8] == top
    ensures 4 * (base + 2 * i) + 8 <= |s|
    ensures VertexColor(s, base + 2 * i) == bottom && VertexColor(s, base + 2 * i + 1) == top
  {
    GroupInChunk(s, 4 * base, chunk, 4, 2 * i, bottom);
    GroupInChunk(s, 4 * base, chunk, 4, 2 * i + 1, top);
  }

  lemma {:induction false} PositionCoords<R>(n: nat, coords: seq<R>, at: (Ring, nat) -> (R, R), zero: R, thickness: R, r: Ring, i: nat)
    requires 3 * RingBase(n, r) + 6 * RingSize(n, r) <= |coords|
    requires coords[3 * RingBase(n, r) .. 3 * RingBase(n, r) + 6 * RingSize(n, r)] == RingCoords(r, at, zero, thickness, RingSize(n, r))
    requires i < RingSize(n, r)
    ensures Vertex(coords, RingBase(n, r) + 2 * i) == [at(r, i).0, at(r, i).1, zero]
    ensures Vertex(coords, RingBase(n, r) + 2 * i + 1) == [at(r, i).0, at(r, i).1, thickness]
  {
    RingCoordsEntries(r, at, zero, thickness, RingSize(n, r), i);
    PairOfCoords(coords, RingBase(n, r), RingCoords(r, at, zero, thickness, RingSize(n, r)), i,
                 [at(r, i).0, at(r, i).1, zero], [at(r, i).0, at(r, i).1, thickness]);
  }

  lemma {:induction false} PositionColors(n: nat, colors: seq<int>, r: Ring, i: nat)
    requires 4 * RingBase(n, r) + 8 * RingSize(n, r) <= |colors|
    requires colors[4 * RingBase(n, r) .. 4 * RingBase(n, r) + 8 * RingSize(n, r)] == RingColors(r, RingSize(n, r))
    requires i < RingSize(n, r)
    ensures VertexColor(colors, RingBase(n, r) + 2 * i) == RingColor(r)
    ensures VertexColor(colors, RingBase(n, r) + 2 * i + 1) == RingColor(r)
  {
    RingColorsEntries(r, RingSize(n, r), i);
    PairOfColors(colors, RingBase(n, r), RingColors(r, RingSize(n, r)), i, RingColor(r), RingColor(r));
  }

  /**
   * What the layout means vertex by vertex: position `i` of ring `r` is numbered
   * `RingBase(n, r) + 2i` on the bottom face and one more on the top face, both vertices
   * sit at the generator's x and y, at z = `zero` and z = `thickness`, in the ring's colour.
   */
  lemma {:induction false} VertexOfPosition<R>(n: nat, g: GearVertices<R>, at: (Ring, nat) -> (R, R), zero: R, thickness: R, r: Ring, i: nat)
    requires GearLaidOut(n, g, at, zero, thickness)
    requires i < RingSize(n, r)
    ensures |g.coords| == 42 * n && |g.colors| == 56 * n
    ensures g.indices.Of(r).bottom[i] == RingBase(n, r) + 2 * i
    ensures g.indices.Of(r).top[i] == RingBase(n, r) + 2 * i + 1
    ensures Vertex(g.coords, RingBase(n, r) + 2 * i) == [at(r, i).0, at(r, i).1, zero]
    ensures Vertex(g.coords, RingBase(n, r) + 2 * i + 1) == [at(r, i).0, at(r, i).1, thickness]
    ensures VertexColor(g.colors, RingBase(n, r) + 2 * i) == RingColor(r)
    ensures VertexColor(g.colors, RingBase(n, r) + 2 * i + 1) == RingColor(r)
  {
    CoordsChunk(n, g.coords, at, zero, thickness, r);
    ColorsChunk(n, g.colors, r);
    PositionCoords(n, g.coords, at, zero, thickness, r, i);
    PositionColors(n, g.colors, r, i);
  }

  /** `calculateCoordinates` of the C++ sample: nothing at all for fewer than three teeth. */
  method CalculateCoordinates<R>(numTeeth: int, at: (Ring, nat) -> (R, R), zero: R, thickness: R)
    returns (g: GearVertices<R>)
    ensures numTeeth < 3 ==> g == NoVertices()
    ensures numTeeth >= 3 ==> GearLaidOut(numTeeth, g, at, zero, thickness)
  {
    if numTeeth < 3 {
      return NoVertices();
    }
    g := LayOutGear(numTeeth, at, zero, thickness);
  }

  /**
   * `calculateCoordinates` of the Python sample: there is no lower bound on the tooth
   * count; zero teeth divide by zero, which the function's handler turns into `None`,
   * and a negative count runs every loop zero times.
   */
  method PyCalculateCoordinates<R>(numTeeth: int, at: (Ring, nat) -> (R, R), zero: R, thickness: R)
    returns (g: Option<GearVertices<R>>)
    ensures numTeeth == 0 <==> g.None?
    ensures numTeeth < 0 ==> g == Some(NoVertices())
    ensures numTeeth > 0 ==> g.Some? && GearLaidOut(numTeeth, g.value, at, zero, thickness)
  {
    if numTeeth == 0 {
      return None;
    }
    if numTeeth < 0 {
      return Some(NoVertices());
    }
    var laid := LayOutGear(numTeeth, at, zero, thickness);
    g := Some(laid);
  }

  // ---------------------------------------------------------------------------
  // Strip lengths
  // ---------------------------------------------------------------------------

  /** Strip lengths for `n` teeth: n sixes, 2n twenty-ones, n twenty-fours, 2n sixes. */
  function StripLengths(n: nat): seq<int>
  {
    Repeat(6, n) + Repeat(21, 2 * n) + Repeat(24, n) + Repeat(6, 2 * n)
  }

  /** `calculateStripLen` of the C++ sample: empty for fewer than three teeth. */
  function CalculateStripLen(numTeeth: int): (r: seq<int>)
    ensures numTeeth < 3 ==> r == []
    ensures numTeeth >= 3 ==> |r| == 6 * numTeeth
  {
    if numTeeth < 3 then [] else StripLengths(numTeeth)
  }

  /** `calculateStripLen` of the Python sample: no guard, so only a non-positive count gives nothing. */
  function PyCalculateStripLen(numTeeth: int): (r: seq<int>)
    ensures numTeeth <= 0 ==> r == []
    ensures numTeeth > 0 ==> |r| == 6 * numTeeth
  {
    if numTeeth <= 0 then [] else StripLengths(numTeeth)
  }

  lemma StripLengthsShape(n: nat)
    ensures |StripLengths(n)| == 6 * n
    ensures forall k :: 0 <= k < n ==> StripLengths(n)[k] == 6
    ensures forall k :: n <= k < 3 * n ==> StripLengths(n)[k] == 21
    ensures forall k :: 3 * n <= k < 4 * n ==> StripLengths(n)[k] == 24
    ensures forall k :: 4 * n <= k < 6 * n ==> StripLengths(n)[k] == 6
  {
  }

  lemma StripLengthsSum(n: nat)
    ensures Sum(StripLengths(n)) == 84 * n
  {
    SumAppend(Repeat(6, n) + Repeat(21, 2 * n) + Repeat(24, n), Repeat(6, 2 * n));
    SumAppend(Repeat(6, n) + Repeat(21, 2 * n), Repeat(24, n));
    SumAppend(Repeat(6, n), Repeat(21, 2 * n));
    SumRepeat(6, n);
    SumRepeat(21, 2 * n);
    SumRepeat(24, n);
    SumRepeat(6, 2 * n);
  }

  // ---------------------------------------------------------------------------
  // Triangle index list
  // ---------------------------------------------------------------------------

  /** The five loops of `calculateTriangles`, in order. */
  datatype Section = BetweenTeeth | BottomFace | TopFace | ToothSides | InnerFace

  /** Iterations of a section's loop. */
  function SectionCount(s: Section, n: nat): nat
  {
    if s == InnerFace then 2 * n else n
  }

  /** Indices one iteration of a section's loop appends. */
  function PieceLength(s: Section): nat
  {
    match s
    case BetweenTeeth => 6
    case BottomFace => 21
    case TopFace => 21
    case ToothSides => 24
    case InnerFace => 6
  }

  predicate RingHas(ind: RingIndices, count: nat)
  {
    |ind.bottom| >= count && |ind.top| >= count
  }

  /** The index arrays are long enough for every subscript `calculateTriangles` takes. */
  predicate WellSized(g: GearIndices, n: nat)
  {
    && RingHas(g.root, 2 * n) && RingHas(g.hole, 2 * n)
    && RingHas(g.pitch, 2 * n) && RingHas(g.outside, n)
  }

  /** The wrap-around subscript `x % m` the loops use to close each ring. */
  function Wrap(x: nat, m: nat): (r: nat)
    requires m > 0
    ensures r < m
    ensures x < m ==> r == x
    ensures x == m ==> r == 0
  {
    x % m
  }

  /** Two triangles closing the gap between tooth `i` and tooth `i + 1` on the root ring. */
  function GapPiece(n: nat, g: GearIndices, i: nat): seq<int>
    requires 0 < n && i < n && WellSized(g, n)
  {
    var idx0, idx1 := Wrap(2 * i + 1, 2 * n), Wrap(2 * i + 2, 2 * n);
    var rA0, rB0 := g.root.bottom[idx0], g.root.bottom[idx1];
    var rA1, rB1 := g.root.top[idx0], g.root.top[idx1];
    [rA0, rB0, rB1, rB1, rA1, rA0]
  }

  /** Seven triangles of tooth `i` on one face, built from that face's index arrays. */
  function FacePiece(n: nat, root: seq<int>, hole: seq<int>, pitch: seq<int>, outside: seq<int>, i: nat, bottom: bool): seq<int>
    requires 0 < n && i < n
    requires |root| >= 2 * n && |hole| >= 2 * n && |pitch| >= 2 * n && |outside| >= n
  {
    var rA, rB, rC := root[2 * i], root[2 * i + 1], root[Wrap(2 * i + 2, 2 * n)];
    var hA, hB, hC := hole[2 * i], hole[2 * i + 1], hole[Wrap(2 * i + 2, 2 * n)];
    var pA, pB := pitch[2 * i], pitch[2 * i + 1];
    var o := outside[i];
    if bottom then
      [hB, hC, rC, rC, rB, hB,
       rA, rB, pB, pB, pA, rA,
       hA, hB, rB, rB, rA, hA,
       pA, pB, o]
    else
      [hC, hB, rB, rB, rC, hC,
       rB, rA, pA, pA, pB, rB,
       hB, hA, rA, rA, rB, hB,
       pB, pA, o]
  }

  /** Eight triangles on the two flanks of tooth `i`, joining the bottom and top faces. */
  function SidePiece(n: nat, g: GearIndices, i: nat): seq<int>
    requires 0 < n && i < n && WellSized(g, n)
  {
    var rA0, rB0 := g.root.bottom[2 * i], g.root.bottom[2 * i + 1];
    var pA0, pB0 := g.pitch.bottom[2 * i], g.pitch.bottom[2 * i + 1];
    var rA1, rB1 := g.root.top[2 * i], g.root.top[2 * i + 1];
    var pA1, pB1 := g.pitch.top[2 * i], g.pitch.top[2 * i + 1];
    var o0, o1 := g.outside.bottom[i], g.outside.top[i];
    [rA1, rA0, pA0, pA0, pA1, rA1,
     pA1, pA0, o0, o0, o1, pA1,
     rB0, rB1, pB1, pB1, pB0, rB0,
     pB0, pB1, o1, o1, o0, pB0]
  }

  /** Two triangles of the hole's wall between positions `i` and `i + 1`. */
  function InnerPiece(n: nat, g: GearIndices, i: nat): seq<int>
    requires 0 < n && i < 2 * n && WellSized(g, n)
  {
    var hA0, hB0 := g.hole.bottom[i], g.hole.bottom[Wrap(i + 1, 2 * n)];
    var hA1, hB1 := g.hole.top[i], g.hole.top[Wrap(i + 1, 2 * n)];
    [hA1, hB1, hB0, hB0, hA0, hA1]
  }

  /** Indices appended by iteration `i` of section `s`. */
  function Piece(s: Section, n: nat, g: GearIndices, i: nat): (p: seq<int>)
    requires n > 0 && WellSized(g, n) && i < SectionCount(s, n)
    ensures |p| == PieceLength(s)
  {
    match s
    case BetweenTeeth => GapPiece(n, g, i)
    case BottomFace => FacePiece(n, g.root.bottom, g.hole.bottom, g.pitch.bottom, g.outside.bottom, i, true)
    case TopFace => FacePiece(n, g.root.top, g.hole.top, g.pitch.top, g.outside.top, i, false)
    case ToothSides => SidePiece(n, g, i)
    case InnerFace => InnerPiece(n, g, i)
  }

  /** What the first `k` iterations of section `s` append. */
  function Tiles(s: Section, n: nat, g: GearIndices, k: nat): seq<int>
    requires n > 0 && WellSized(g, n) && k <= SectionCount(s, n)
  {
    if k == 0 then [] else Tiles(s, n, g, k - 1) + Piece(s, n, g, k - 1)
  }

  function FullSection(s: Section, n: nat, g: GearIndices): seq<int>
    requires n > 0 && WellSized(g, n)
  {
    Tiles(s, n, g, SectionCount(s, n))
  }

  /** The triangle index list for `n >= 1` teeth: the five sections one after another. */
  function Triangles(n: nat, g: GearIndices): seq<int>
    requires n > 0 && WellSized(g, n)
  {
    FullSection(BetweenTeeth, n, g) + FullSection(BottomFace, n, g) + FullSection(TopFace, n, g)
    + FullSection(ToothSides, n, g) + FullSection(InnerFace, n, g)
  }

  /** `calculateTriangles` of the C++ sample: empty for fewer than three teeth. */
  function CalculateTriangles(numTeeth: int, g: GearIndices): seq<int>
    requires numTeeth < 3 || WellSized(g, numTeeth)
  {
    if numTeeth < 3 then [] else Triangles(numTeeth, g)
  }

  /**
   * `calculateTriangles` of the Python sample: no guard; a non-positive count runs no loop,
   * and a subscript past the end of an index list raises, which the handler turns into `None`.
   */
  function PyCalculateTriangles(numTeeth: int, g: GearIndices): Option<seq<int>>
  {
    if numTeeth <= 0 then Some([])
    else if !WellSized(g, numTeeth) then None
    else Some(Triangles(numTeeth, g))
  }

  /** Every entry of `s` is a vertex number in `[0, bound)`. */
  predicate AllBelow(s: seq<int>, bound: int)
  {
    forall k :: 0 <= k < |s| ==> 0 <= s[k] < bound
  }

  lemma AllBelowAppend(a: seq<int>, b: seq<int>, bound: int)
    requires AllBelow(a, bound) && AllBelow(b, bound)
    ensures AllBelow(a + b, bound)
  {
  }

  /** Every entry of every index array is a vertex number in `[0, bound)`. */
  predicate EntriesBelow(g: GearIndices, bound: int)
  {
    && AllBelow(g.root.bottom, bound) && AllBelow(g.root.top, bound)
    && AllBelow(g.hole.bottom, bound) && AllBelow(g.hole.top, bound)
    && AllBelow(g.pitch.bottom, bound) && AllBelow(g.pitch.top, bound)
    && AllBelow(g.outside.bottom, bound) && AllBelow(g.outside.top, bound)
  }

  lemma FacePieceBelow(n: nat, root: seq<int>, hole: seq<int>, pitch: seq<int>, outside: seq<int>, i: nat, bottom: bool, bound: int)
    requires 0 < n && i < n
    requires |root| >= 2 * n && |hole| >= 2 * n && |pitch| >= 2 * n && |outside| >= n
    requires AllBelow(root, bound) && AllBelow(hole, bound) && AllBelow(pitch, bound) && AllBelow(outside, bound)
    ensures AllBelow(FacePiece(n, root, hole, pitch, outside, i, bottom), bound)
  {
  }

  /** Every index a loop iteration appends is taken from the index arrays. */
  lemma PieceBelow(s: Section, n: nat, g: GearIndices, i: nat, bound: int)
    requires n > 0 && WellSized(g, n) && i < SectionCount(s, n)
    requires EntriesBelow(g, bound)
    ensures AllBelow(Piece(s, n, g, i), bound)
  {
    match s
    case BottomFace =>
      FacePieceBelow(n, g.root.bottom, g.hole.bottom, g.pitch.bottom, g.outside.bottom, i, true, bound);
    case TopFace =>
      FacePieceBelow(n, g.root.top, g.hole.top, g.pitch.top, g.outside.top, i, false, bound);
    case _ =>
  }

  lemma MulStep(a: nat, k: nat)
    requires k > 0
    ensures a * (k - 1) + a == a * k
  {
  }

  lemma {:induction false} TilesLength(s: Section, n: nat, g: GearIndices, k: nat)
    requires n > 0 && WellSized(g, n) && k <= SectionCount(s, n)
    ensures |Tiles(s, n, g, k)| == PieceLength(s) * k
  {
    if k > 0 {
      TilesLength(s, n, g, k - 1);
      MulStep(PieceLength(s), k);
    }
  }

  /** Each section contributes its per-iteration count times its iteration count. */
  lemma SectionLengths(n: nat, g: GearIndices)
    requires n > 0 && WellSized(g, n)
    ensures |FullSection(BetweenTeeth, n, g)| == 6 * n
    ensures |FullSection(BottomFace, n, g)| == 21 * n
    ensures |FullSection(TopFace, n, g)| == 21 * n
    ensures |FullSection(ToothSides, n, g)| == 24 * n
    ensures |FullSection(InnerFace, n, g)| == 12 * n
  {
    TilesLength(BetweenTeeth, n, g, n);
    TilesLength(BottomFace, n, g, n);
    TilesLength(TopFace, n, g, n);
    TilesLength(ToothSides, n, g, n);
    TilesLength(InnerFace, n, g, 2 * n);
    assert PieceLength(InnerFace) * (2 * n) == 12 * n;
  }

  lemma {:induction false} TilesBelow(s: Section, n: nat, g: GearIndices, k: nat, bound: int)
    requires n > 0 && WellSized(g, n) && k <= SectionCount(s, n)
    requires forall i :: 0 <= i < k ==> AllBelow(Piece(s, n, g, i), bound)
    ensures AllBelow(Tiles(s, n, g, k), bound)
  {
    if k > 0 {
      TilesBelow(s, n, g, k - 1, bound);
      AllBelowAppend(Tiles(s, n, g, k - 1), Piece(s, n, g, k - 1), bound);
    }
  }

  lemma SectionBelow(s: Section, n: nat, g: GearIndices, bound: int)
    requires n > 0 && WellSized(g, n) && EntriesBelow(g, bound)
    ensures AllBelow(FullSection(s, n, g), bound)
  {
    forall i | 0 <= i < SectionCount(s, n)
      ensures AllBelow(Piece(s, n, g, i), bound)
    {
      PieceBelow(s, n, g, i, bound);
    }
    TilesBelow(s, n, g, SectionCount(s, n), bound);
  }

  /** The triangle list has 84n indices, every one of them taken from the index arrays. */
  lemma TrianglesLength(n: nat, g: GearIndices)
    requires n > 0 && WellSized(g, n)
    ensures |Triangles(n, g)| == 84 * n
  {
    SectionLengths(n, g);
  }

  lemma TrianglesBelow(n: nat, g: GearIndices, bound: int)
    requires n > 0 && WellSized(g, n) && EntriesBelow(g, bound)
    ensures AllBelow(Triangles(n, g), bound)
  {
    var a, b, c, d, e := FullSection(BetweenTeeth, n, g), FullSection(BottomFace, n, g), FullSection(TopFace, n, g),
                         FullSection(ToothSides, n, g), FullSection(InnerFace, n, g);
    SectionBelow(BetweenTeeth, n, g, bound);
    SectionBelow(BottomFace, n, g, bound);
    SectionBelow(TopFace, n, g, bound);
    SectionBelow(ToothSides, n, g, bound);
    SectionBelow(InnerFace, n, g, bound);
    AllBelowAppend(a, b, bound);
    AllBelowAppend(a + b, c, bound);
    AllBelowAppend(a + b + c, d, bound);
    AllBelowAppend(a + b + c + d, e, bound);
  }

  /** The strip lengths of `drawLines` add up to exactly the length of its index list. */
  lemma StripsCoverTriangles(n: nat, g: GearIndices)
    requires n > 0 && WellSized(g, n)
    ensures Sum(StripLengths(n)) == |Triangles(n, g)|
    ensures |Triangles(n, g)| == 3 * (28 * n)
  {
    StripLengthsSum(n);
    TrianglesLength(n, g);
  }

  lemma LaidOutIndices<R>(n: nat, g: GearVertices<R>, at: (Ring, nat) -> (R, R), zero: R, thickness: R)
    requires GearLaidOut(n, g, at, zero, thickness)
    ensures WellSized(g.indices, n)
    ensures EntriesBelow(g.indices, 14 * n)
  {
  }

  /**
   * The index part of `drawMesh` / `drawLines` in the C++ sample: lay out the vertices,
   * then build triangles and strips over them. Every index names an emitted vertex and
   * the strips partition the index list.
   */
  method MeshIndexList<R>(numTeeth: int, at: (Ring, nat) -> (R, R), zero: R, thickness: R)
    returns (g: GearVertices<R>, indices: seq<int>, strips: seq<int>)
    ensures numTeeth < 3 ==> g == NoVertices() && indices == [] && strips == []
    ensures numTeeth >= 3 ==> |indices| == 84 * numTeeth && |g.coords| == 42 * numTeeth
    ensures forall k :: 0 <= k < |indices| ==> 0 <= indices[k] && 3 * indices[k] + 3 <= |g.coords|
    ensures Sum(strips) == |indices|
  {
    g := CalculateCoordinates(numTeeth, at, zero, thickness);
    if numTeeth >= 3 {
      LaidOutIndices(numTeeth, g, at, zero, thickness);
    }
    indices := CalculateTriangles(numTeeth, g.indices);
    strips := CalculateStripLen(numTeeth);
    if numTeeth >= 3 {
      TrianglesLength(numTeeth, g.indices);
      TrianglesBelow(numTeeth, g.indices, 14 * numTeeth);
      StripsCoverTriangles(numTeeth, g.indices);
    }
  }

  /** The Python sample has no guard against few teeth: for every positive count the triangles
      over the laid-out gear are 84n indices naming emitted vertices, and its strips add up to
      exactly that count. */
  lemma PyTrianglesOverLayout<R>(n: nat, g: GearVertices<R>, at: (Ring, nat) -> (R, R), zero: R, thickness: R)
    requires n > 0 && GearLaidOut(n, g, at, zero, thickness)
    ensures PyCalculateTriangles(n, g.indices).Some?
    ensures |PyCalculateTriangles(n, g.indices).value| == 84 * n
    ensures AllBelow(PyCalculateTriangles(n, g.indices).value, 14 * n)
    ensures Sum(PyCalculateStripLen(n)) == |PyCalculateTriangles(n, g.indices).value|
  {
    LaidOutIndices(n, g, at, zero, thickness);
    TrianglesLength(n, g.indices);
    TrianglesBelow(n, g.indices, 14 * n);
    StripsCoverTriangles(n, g.indices);
  }
}

/**
 * MapSymmetry: battlecode maps are symmetric under a vertical-axis reflection,
 * a horizontal-axis reflection or a half-turn rotation; the bot tracks which of
 * the three are still possible and maps a location to its images.
 */
module MapSymmetry {
  import opened Engine

  const VerticalSymmetry: int := 0
  const RotationalSymmetry: int := 1
  const HorizontalSymmetry: int := 2

  /** isSymmetryPossible, entry by entry. */
  datatype Possible = Possible(vertical: bool, rotational: bool, horizontal: bool)

  const AllPossible := Possible(true, true, true)

  /**
   * init as written: a map that is not square has the half-turn ruled out,
   * although a half-turn maps every rectangle onto itself.
   */
  function Init(dims: MapDims, p: Possible): (r: Possible)
    ensures r.vertical == p.vertical && r.horizontal == p.horizontal
    ensures r.rotational <==> p.rotational && dims.width == dims.height
  {
    if dims.width != dims.height then p.(rotational := false) else p
  }

  /** The reflection in the vertical axis: x becomes W - x - 1. */
  function Vertical(dims: MapDims, l: Loc): Loc
  {
    Loc(dims.width - l.x - 1, l.y)
  }

  /** The reflection in the horizontal axis: y becomes H - y - 1. */
  function Horizontal(dims: MapDims, l: Loc): Loc
  {
    Loc(l.x, dims.height - l.y - 1)
  }

  /** The half-turn about the map's centre. */
  function Rotational(dims: MapDims, l: Loc): Loc
  {
    Loc(dims.width - l.x - 1, dims.height - l.y - 1)
  }

  /** Each symmetry undoes itself. */
  lemma Involutions(dims: MapDims, l: Loc)
    ensures Vertical(dims, Vertical(dims, l)) == l
    ensures Horizontal(dims, Horizontal(dims, l)) == l
    ensures Rotational(dims, Rotational(dims, l)) == l
  {
  }

  /** Each symmetry maps the map onto itself. */
  lemma StayOnMap(dims: MapDims, l: Loc)
    requires OnMap(dims, l)
    ensures OnMap(dims, Vertical(dims, l)) && OnMap(dims, Horizontal(dims, l)) && OnMap(dims, Rotational(dims, l))
  {
  }

  /** The half-turn is the two reflections one after the other, in either order. */
  lemma RotationComposes(dims: MapDims, l: Loc)
    ensures Rotational(dims, l) == Vertical(dims, Horizontal(dims, l)) == Horizontal(dims, Vertical(dims, l))
  {
  }

  /** getSymmetricCoords: 0, 1 and 2 select a symmetry; any other index falls back to the vertical reflection. */
  function SymmetricCoords(dims: MapDims, l: Loc, symmetry: int): (r: Loc)
    ensures symmetry == RotationalSymmetry ==> r == Rotational(dims, l)
    ensures symmetry == HorizontalSymmetry ==> r == Horizontal(dims, l)
    ensures symmetry != RotationalSymmetry && symmetry != HorizontalSymmetry ==> r == Vertical(dims, l)
  {
    if symmetry == VerticalSymmetry then Vertical(dims, l)
    else if symmetry == HorizontalSymmetry then Horizontal(dims, l)
    else if symmetry == RotationalSymmetry then Rotational(dims, l)
    else Vertical(dims, l)
  }

  /** Symmetry s sends every location of the map to a location of the map. */
  ghost predicate MapsOntoItself(dims: MapDims, s: int)
  {
    forall l :: OnMap(dims, l) ==> OnMap(dims, SymmetricCoords(dims, l, s))
  }

  lemma AllMapOntoItself(dims: MapDims)
    ensures forall s :: MapsOntoItself(dims, s)
  {
    forall s, l | OnMap(dims, l)
      ensures OnMap(dims, SymmetricCoords(dims, l, s))
    {
      StayOnMap(dims, l);
    }
  }

  /**
   * On a 20x30 map the half-turn sends every location to a location of the map,
   * so the map may well be rotationally symmetric, yet init rules that out.
   */
  lemma RotationRuledOutOnNonSquare()
    ensures MapsOntoItself(MapDims(20, 30), RotationalSymmetry)
    ensures !Init(MapDims(20, 30), AllPossible).rotational
  {
    AllMapOntoItself(MapDims(20, 30));
  }

  /**
   * init as intended: the map's shape rules out exactly the symmetries that would
   * send a location off the map, and since none does, every flag is kept.
   */
  function InitIntended(dims: MapDims, p: Possible): (r: Possible)
    ensures forall s :: IsPossible(r, s) <==> IsPossible(p, s) && MapsOntoItself(dims, s)
  {
    AllMapOntoItself(dims);
    p
  }

  function B(b: bool): nat { if b then 1 else 0 }

  function NumPossible(p: Possible): nat
  {
    B(p.vertical) + B(p.rotational) + B(p.horizontal)
  }

  /** Whether the symmetry with index s is still possible. */
  predicate IsPossible(p: Possible, s: int)
  {
    (s == VerticalSymmetry && p.vertical) || (s == RotationalSymmetry && p.rotational) || (s == HorizontalSymmetry && p.horizontal)
  }

  /**
   * getAllSymmetricCoords: one image per possible symmetry, in index order
   * (vertical, rotational, horizontal). The second component lists the symmetry
   * behind each image.
   */
  function AllSymmetricCoords(dims: MapDims, p: Possible, l: Loc): (r: (seq<Loc>, seq<int>))
    ensures |r.0| == |r.1| == NumPossible(p)
    ensures forall k :: 0 <= k < |r.0| ==> r.0[k] == SymmetricCoords(dims, l, r.1[k]) && IsPossible(p, r.1[k])
    ensures forall s :: IsPossible(p, s) <==> s in r.1
    ensures forall a, b :: 0 <= a < b < |r.1| ==> r.1[a] < r.1[b]
  {
    var imgs := (if p.vertical then [Vertical(dims, l)] else [])
      + (if p.rotational then [Rotational(dims, l)] else [])
      + (if p.horizontal then [Horizontal(dims, l)] else []);
    var idx := (if p.vertical then [VerticalSymmetry] else [])
      + (if p.rotational then [RotationalSymmetry] else [])
      + (if p.horizontal then [HorizontalSymmetry] else []);
    (imgs, idx)
  }

  /** On a square map every symmetry remains possible and every image stays on the map. */
  lemma SquareKeepsAll(dims: MapDims, l: Loc)
    requires dims.width == dims.height && OnMap(dims, l)
    ensures Init(dims, AllPossible) == AllPossible
    ensures |AllSymmetricCoords(dims, AllPossible, l).0| == 3
    ensures forall k :: 0 <= k < 3 ==> OnMap(dims, AllSymmetricCoords(dims, AllPossible, l).0[k])
  {
    var r := AllSymmetricCoords(dims, AllPossible, l);
    forall k | 0 <= k < 3
      ensures OnMap(dims, r.0[k])
    {
      StayOnMap(dims, l);
    }
  }
}

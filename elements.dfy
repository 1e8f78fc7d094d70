// The five-kind element catalogue: the materials a cell can hold and their
// static classification predicates.

module Elements {

  datatype Element = Air | Sand | Water | Stone | Person

  /** The palette order: every kind exactly once, Air (the eraser) last. */
  function All(): (r: seq<Element>)
    ensures |r| == 5
    ensures forall i, j :: 0 <= i < j < |r| ==> r[i] != r[j]
    ensures r[0] == Sand && r[4] == Air
  {
    [Sand, Water, Stone, Person, Air]
  }

  /** The palette offers every kind. */
  lemma AllComplete(e: Element)
    ensures e in All()
  {
    match e
    case Sand => assert All()[0] == e;
    case Water => assert All()[1] == e;
    case Stone => assert All()[2] == e;
    case Person => assert All()[3] == e;
    case Air => assert All()[4] == e;
  }

  /** The label shown for a kind; Air is offered as the eraser. */
  function Name(e: Element): (r: string)
    ensures |r| > 0
    ensures r == "Eraser" <==> e == Air
  {
    match e
    case Air => "Eraser"
    case Sand => "Sand"
    case Water => "Water"
    case Stone => "Stone"
    case Person => "Person"
  }

  /** Only water flows. */
  predicate IsLiquid(e: Element)
    ensures IsLiquid(e) <==> e == Water
  {
    match e
    case Water => true
    case _ => false
  }

  /** Solid means: neither empty nor liquid. */
  predicate IsSolid(e: Element)
    ensures IsSolid(e) <==> e != Air && !IsLiquid(e)
  {
    !(e == Air || e == Water)
  }

  /** The kinds that have a movement rule of their own. */
  predicate IsMovable(e: Element)
    ensures IsMovable(e) <==> e != Air && e != Stone
  {
    e == Sand || e == Water || e == Person
  }

  /** The kinds a person can stand on: exactly the solid kinds other than a person. */
  predicate CanWalkOn(e: Element)
    ensures CanWalkOn(e) <==> IsSolid(e) && e != Person
  {
    e == Stone || e == Sand
  }

  /** No two kinds share a label. */
  lemma NameInjective(a: Element, b: Element)
    ensures Name(a) == Name(b) ==> a == b
  {
    if a != b {
      assert Name(a)[0] != Name(b)[0] || |Name(a)| != |Name(b)|;
    }
  }

  /** Walkable ground is solid and, apart from sand, does not move. */
  lemma WalkableIsSolid(e: Element)
    ensures CanWalkOn(e) ==> IsSolid(e) && !IsLiquid(e)
    ensures CanWalkOn(e) && IsMovable(e) ==> e == Sand
  {
  }
}

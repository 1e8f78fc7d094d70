// The older four-kind element catalogue (no person), and how it sits inside
// the five-kind one.

module LegacyElements {
  import E = Elements

  datatype Element = Air | Sand | Water | Stone

  /** The palette order: every kind exactly once, Air (the eraser) last. */
  function All(): (r: seq<Element>)
    ensures |r| == 4
    ensures forall i, j :: 0 <= i < j < |r| ==> r[i] != r[j]
    ensures r[0] == Sand && r[3] == Air
  {
    [Sand, Water, Stone, Air]
  }

  /** The palette offers every kind. */
  lemma AllComplete(e: Element)
    ensures e in All()
  {
    match e
    case Sand => assert All()[0] == e;
    case Water => assert All()[1] == e;
    case Stone => assert All()[2] == e;
    case Air => assert All()[3] == e;
  }

  function Name(e: Element): (r: string)
    ensures |r| > 0
    ensures r == "Eraser" <==> e == Air
  {
    match e
    case Air => "Eraser"
    case Sand => "Sand"
    case Water => "Water"
    case Stone => "Stone"
  }

  /** Only water flows. */
  predicate IsLiquid(e: Element)
    ensures IsLiquid(e) <==> e == Water
  {
    match e
    case Water => true
    case _ => false
  }

  /** Solid means: neither empty nor liquid. */
  predicate IsSolid(e: Element)
    ensures IsSolid(e) <==> e != Air && !IsLiquid(e)
  {
    !(e == Air || e == Water)
  }

  /** Here only the two falling materials move; stone and air never do. */
  predicate IsMovable(e: Element)
    ensures IsMovable(e) <==> e != Air && e != Stone
  {
    e == Sand || e == Water
  }

  /** The same kind in the five-kind catalogue. */
  function Widen(e: Element): (r: E.Element)
    ensures r != E.Person
    ensures E.Name(r) == Name(e)
  {
    match e
    case Air => E.Air
    case Sand => E.Sand
    case Water => E.Water
    case Stone => E.Stone
  }

  /** No two kinds share a label. */
  lemma NameInjective(a: Element, b: Element)
    ensures Name(a) == Name(b) ==> a == b
  {
    E.NameInjective(Widen(a), Widen(b));
  }

  /** Widening keeps the solid and liquid classification; movability differs
      only in that the person kind does not exist here. */
  lemma WidenAgrees(e: Element)
    ensures E.IsSolid(Widen(e)) == IsSolid(e)
    ensures E.IsLiquid(Widen(e)) == IsLiquid(e)
    ensures E.IsMovable(Widen(e)) == IsMovable(e)
  {
  }

  /** Every five-kind element other than a person comes from exactly one
      four-kind element. */
  lemma WidenOnto(f: E.Element)
    requires f != E.Person
    ensures exists e :: Widen(e) == f
    ensures forall a, b :: Widen(a) == Widen(b) ==> a == b
  {
    match f
    case Air => assert Widen(Air) == f;
    case Sand => assert Widen(Sand) == f;
    case Water => assert Widen(Water) == f;
    case Stone => assert Widen(Stone) == f;
  }
}

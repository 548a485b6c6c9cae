/** The table layout of the card scene (`createTableVertices` and `VERTEX_CONFIG.table` in
    src/pages/home/home-three.ts). The sphere and helix layouts are floating-point trigonometry
    and are not modelled. */
module HomeThree {

  import opened Entities
  import HomeUtil

  /** `VERTEX_CONFIG.table`: horizontal offset per column of the row, and the gap between cards. */
  const TABLE_RADIUS := 90
  const TABLE_SPACING := 20

  datatype Vertex = Vertex(x: int, y: int, z: int)

  /** The position of one table card from its grid cell. */
  function TableVertex(item: Person, cardWidth: int, cardHeight: int, rowCount: int): Vertex
  {
    Vertex(item.x * (cardWidth + TABLE_SPACING * 2) - rowCount * TABLE_RADIUS,
           -item.y * (cardHeight + TABLE_SPACING) + 1000,
           0)
  }

  /** `createTableVertices`: one vertex per card, in the order of the cards. */
  function CreateTableVertices(tableData: seq<Person>, cardWidth: int, cardHeight: int, rowCount: int)
    : (r: seq<Vertex>)
    ensures |r| == |tableData|
    ensures forall i :: 0 <= i < |tableData| ==>
      r[i] == TableVertex(tableData[i], cardWidth, cardHeight, rowCount)
  {
    seq(|tableData|, i requires 0 <= i < |tableData| => TableVertex(tableData[i], cardWidth, cardHeight, rowCount))
  }

  /** Cards in different grid cells get different positions, as long as a card plus its
      spacing has positive width and height. */
  lemma TableVerticesDistinct(a: Person, b: Person, cardWidth: int, cardHeight: int, rowCount: int)
    requires cardWidth + 2 * TABLE_SPACING > 0 && cardHeight + TABLE_SPACING > 0
    requires (a.x, a.y) != (b.x, b.y)
    ensures TableVertex(a, cardWidth, cardHeight, rowCount) != TableVertex(b, cardWidth, cardHeight, rowCount)
  {
    if a.x != b.x {
      MulInjective(a.x, b.x, cardWidth + 2 * TABLE_SPACING);
    } else {
      MulInjective(a.y, b.y, cardHeight + TABLE_SPACING);
    }
  }

  lemma MulInjective(u: int, v: int, c: int)
    requires c > 0 && u != v
    ensures u * c != v * c
  {
    if u < v {
      assert v * c - u * c == (v - u) * c;
    } else {
      assert u * c - v * c == (u - v) * c;
    }
  }

  /** On a table built by `initTableData`, card `k` sits at column `k % rowCount + 1` and row
      `k / rowCount + 1`, so its vertex is a closed formula in `k`. */
  lemma PlacedCardVertex(p: Person, k: nat, cardWidth: int, cardHeight: int, rowCount: int)
    requires rowCount >= 1
    ensures TableVertex(HomeUtil.Placed(p, k, rowCount), cardWidth, cardHeight, rowCount)
         == Vertex((k % rowCount + 1) * (cardWidth + 40) - rowCount * 90,
                   -(k / rowCount + 1) * (cardHeight + 20) + 1000, 0)
  {
  }
}

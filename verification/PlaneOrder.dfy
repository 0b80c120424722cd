/** Planes come out in order, disjoint, and exactly fill the allocation, whatever the layout family. */
module PlaneOrder {
  import opened Alignment
  import opened Layout

  /** A later plane starts at or after the end of an earlier one. */
  lemma {:induction false} PlanesInOrder(q: Request, p: nat, r: nat)
    requires Computable(q) && p < r < q.f.npln
    ensures End(q, p) <= Start(q, r)
    decreases r
  {
    hide Mul, Div, Align, HeaderSize, BodySize;
    if p + 1 < r {
      PlanesInOrder(q, p, r - 1);
    }
    if q.at.IsAfrc() {
      var before := End(q, r - 1);
      assert Start(q, r) == Align(before, AfrcPlaneAlign(q, r)) >= before;
    }
  }

  ghost predicate InPlane(q: Request, p: nat, byte: nat)
    requires Computable(q) && p < q.f.npln
  {
    Start(q, p) <= byte < End(q, p)
  }

  /** The first plane starts the buffer, the last one ends it, and no byte belongs to two planes. */
  lemma PlanesPartitionTheBuffer(q: Request, byte: nat, p: nat, r: nat)
    requires Computable(q) && p < q.f.npln && r < q.f.npln
    ensures Start(q, 0) == 0
    ensures End(q, q.f.npln - 1) == TotalSize(q)
    ensures InPlane(q, p, byte) ==> byte < TotalSize(q)
    ensures InPlane(q, p, byte) && InPlane(q, r, byte) ==> p == r
  {
    hide Mul, Div, Align, HeaderSize, BodySize, Start;
    FirstPlaneStartsAtZero(q);
    if p < r {
      PlanesInOrder(q, p, r);
    } else if r < p {
      PlanesInOrder(q, r, p);
    }
    if p < q.f.npln - 1 {
      PlanesInOrder(q, p, q.f.npln - 1);
    }
  }

  /** Without AFRC's alignment there are no gaps: each plane starts where the previous one ends. */
  lemma PlanesAreContiguous(q: Request, p: nat)
    requires Computable(q) && p + 1 < q.f.npln && !q.at.IsAfrc()
    ensures Start(q, p + 1) == End(q, p)
  {
    hide Mul, Div, Align, HeaderSize, BodySize;
  }
}

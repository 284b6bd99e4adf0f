/**
  * Porter-Duff composition operations described by three integer weights
  * (comp_op.hpp). The weights multiply the three regions of a two-layer
  * composite: both layers present (X), only the source (Y), only the
  * destination (Z).
  */
module CompOps {

  datatype CompOp = CompOp(x: int, y: int, z: int) {
    predicate IsSourceOver() { x == 1 && y == 1 && z == 1 }

    predicate IsPlus() { x == 2 && y == 1 && z == 1 }
  }

  /** CompOp(): every weight defaults to zero. */
  function DefaultCompOp(): (op: CompOp)
    ensures op.x == 0 && op.y == 0 && op.z == 0
    ensures !op.IsSourceOver() && !op.IsPlus()
  {
    CompOp(0, 0, 0)
  }

  /** CompOp::SourceOver() */
  function SourceOver(): (op: CompOp)
    ensures op.x == 1 && op.y == 1 && op.z == 1
    ensures op.IsSourceOver() && !op.IsPlus()
  {
    CompOp(1, 1, 1)
  }

  /** CompOp::Plus() */
  function Plus(): (op: CompOp)
    ensures op.x == 2 && op.y == 1 && op.z == 1
    ensures op.IsPlus() && !op.IsSourceOver()
  {
    CompOp(2, 1, 1)
  }

  /** The two named operations are told apart by the X weight alone. */
  lemma SourceOverAndPlusExclusive(op: CompOp)
    ensures !(op.IsSourceOver() && op.IsPlus())
    ensures op.IsSourceOver() <==> op == SourceOver()
    ensures op.IsPlus() <==> op == Plus()
  {
  }
}

/** Edit scripts between two texts, as `SequenceMatcher.get_opcodes` reports them. */
module EditScripts {
  datatype Tag = Equal | Replaced | Deleted | Inserted

  /** `before[i..j]` becomes `after[x..y]`. */
  datatype Op = Op(tag: Tag, i: nat, j: nat, x: nat, y: nat)

  predicate OpFits(op: Op, before: string, after: string) {
    && op.i <= op.j <= |before| && op.x <= op.y <= |after|
    && match op.tag
       case Equal => op.i < op.j && before[op.i..op.j] == after[op.x..op.y]
       case Replaced => op.i < op.j && op.x < op.y
       case Deleted => op.i < op.j && op.x == op.y
       case Inserted => op.i == op.j && op.x < op.y
  }

  ghost predicate Follows(ops: seq<Op>, k: nat)
    requires k < |ops|
  {
    if k == 0 then ops[k].i == 0 && ops[k].x == 0
    else ops[k].i == ops[k - 1].j && ops[k].x == ops[k - 1].y && (ops[k].tag == Equal ==> ops[k - 1].tag != Equal)
  }

  /** Where the script stands before entry `k`. */
  function At(ops: seq<Op>, k: nat): (nat, nat)
    requires k <= |ops|
  {
    if k == 0 then (0, 0) else (ops[k - 1].j, ops[k - 1].y)
  }

  ghost predicate Entry(ops: seq<Op>, k: nat, before: string, after: string)
    requires k < |ops|
  {
    OpFits(ops[k], before, after) && Follows(ops, k)
  }

  /** Entries follow one another from start to end, and no two neighbours are both equal. */
  ghost predicate Script(ops: seq<Op>, before: string, after: string) {
    && (forall k :: 0 <= k < |ops| ==> Entry(ops, k, before, after))
    && At(ops, |ops|) == (|before|, |after|)
  }
}

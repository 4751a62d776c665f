/**
 What a successful check says about the tree itself. Stamps carry a hash of the tree's byte stream; as long as
 that hash has no collision among the streams involved, equal stamps mean equal trees.
 */
module EarnedPass {
  import TreeDigest
  import opened ReportReuse

  type Hash = TreeDigest.Bytes -> string

  /** The stamp was taken of this tree. */
  ghost predicate StampOf(hash: Hash, stamp: Stamp, tree: TreeDigest.Tree) {
    TreeDigest.TreeOk(tree) && stamp.digest == hash(TreeDigest.Encode(tree))
  }

  ghost predicate NoCollision(hash: Hash, t: TreeDigest.Tree, u: TreeDigest.Tree) {
    hash(TreeDigest.Encode(t)) == hash(TreeDigest.Encode(u)) ==> TreeDigest.Encode(t) == TreeDigest.Encode(u)
  }

  lemma SameStampSameTree(hash: Hash, stamp: Stamp, t: TreeDigest.Tree, u: TreeDigest.Tree)
    requires StampOf(hash, stamp, t) && StampOf(hash, stamp, u) && NoCollision(hash, t, u)
    ensures t == u
  {
    TreeDigest.EncodeInjective(t, u);
  }

  /**
   A pass, fresh or reused, was earned on the present tree: in the latest session every planned gate passed under
   the same key, and the trees seen at its start and at its end have the present head, the present three git
   outputs and the present untracked entries.
   */
  lemma PassIsOfThisTree(
    history: seq<Invocation>, v: Invocation, hash: Hash,
    now: TreeDigest.Tree, first: TreeDigest.Tree, last: TreeDigest.Tree)
    requires !v.dry && Step(After(history), v).outcome.Passed?
    requires v.start.Got? && StampOf(hash, v.start.value, now)
    requires var sessions := Step(After(history), v).state.sessions;
             && sessions != [] && sessions[|sessions| - 1].finish.Some?
             && StampOf(hash, sessions[|sessions| - 1].start, first)
             && StampOf(hash, sessions[|sessions| - 1].finish.value, last)
    requires NoCollision(hash, now, first) && NoCollision(hash, now, last)
    ensures first == now && last == now
    ensures var sessions := Step(After(history), v).state.sessions;
            var latest := sessions[|sessions| - 1];
            && latest.start.head == v.start.value.head && latest.finish.value.head == v.start.value.head
            && Complete(latest) && v.planned.Got?
            && forall k | 0 <= k < |v.planned.value| :: DoneUnder(latest.ran, v.planned.value[k])
  {
    SuccessIsEarned(history, v);
    SameStampSameTree(hash, v.start.value, now, first);
    SameStampSameTree(hash, v.start.value, now, last);
  }
}

/** Commits and ancestry. A commit's hash covers its parents, so a commit is the tree of its history. */
module CommitGraph {

  datatype Commit = Commit(content: nat, parents: seq<Commit>)

  /** Reflexive and transitive: what `git merge-base --is-ancestor` decides. */
  predicate IsAncestor(a: Commit, d: Commit) {
    a == d || exists p :: p in d.parents && IsAncestor(a, p)
  }

  lemma {:induction false} AncestorTrans(a: Commit, b: Commit, c: Commit)
    requires IsAncestor(a, b) && IsAncestor(b, c)
    ensures IsAncestor(a, c)
    decreases c
  {
    if b != c {
      var p :| p in c.parents && IsAncestor(b, p);
      AncestorTrans(a, b, p);
    }
  }
}

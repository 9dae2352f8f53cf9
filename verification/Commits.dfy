/** Git commits as an inductive tree of parents: a commit's identity is its content
    together with its parents, which is what a commit hash names. */
module Commits {
  datatype Commit = Commit(tree: nat, parents: seq<Commit>)

  /** `git merge-base --is-ancestor a b`: a commit is an ancestor of itself. */
  predicate IsAncestor(a: Commit, b: Commit) {
    a == b || exists i | 0 <= i < |b.parents| :: IsAncestor(a, b.parents[i])
  }

  ghost function Depth(c: Commit): nat {
    1 + DepthOfAll(c.parents)
  }

  ghost function DepthOfAll(cs: seq<Commit>): nat {
    if cs == [] then 0
    else if Depth(cs[0]) > DepthOfAll(cs[1..]) then Depth(cs[0]) else DepthOfAll(cs[1..])
  }

  lemma {:induction false} DepthOfMember(cs: seq<Commit>, i: nat)
    requires i < |cs|
    ensures Depth(cs[i]) <= DepthOfAll(cs)
  {
    if i > 0 {
      DepthOfMember(cs[1..], i - 1);
    }
  }

  lemma AncestorReflexive(c: Commit)
    ensures IsAncestor(c, c)
  {}

  lemma {:induction false} AncestorTransitive(a: Commit, b: Commit, c: Commit)
    requires IsAncestor(a, b) && IsAncestor(b, c)
    ensures IsAncestor(a, c)
    decreases c
  {
    if b != c {
      var i :| 0 <= i < |c.parents| && IsAncestor(b, c.parents[i]);
      AncestorTransitive(a, b, c.parents[i]);
    }
  }

  lemma {:induction false} ProperAncestorIsShallower(a: Commit, b: Commit)
    requires IsAncestor(a, b) && a != b
    ensures Depth(a) < Depth(b)
    decreases b
  {
    var i :| 0 <= i < |b.parents| && IsAncestor(a, b.parents[i]);
    DepthOfMember(b.parents, i);
    if a != b.parents[i] {
      ProperAncestorIsShallower(a, b.parents[i]);
    }
  }

  /** The commit order has no cycles, so a ref that only moves forward never
      returns to a value it has left: equal readings bracket a period without change. */
  lemma AncestorAntisymmetric(a: Commit, b: Commit)
    requires IsAncestor(a, b) && IsAncestor(b, a)
    ensures a == b
  {
    if a != b {
      ProperAncestorIsShallower(a, b);
      ProperAncestorIsShallower(b, a);
    }
  }
}

/** Bundle versions and the order in which consumers compare them. */
module Versions {

  /** `incarnation` counts restarts of the sender, `generation` its bundle updates. */
  datatype Version = Version(incarnation: nat, generation: nat) {

    /** Lexicographic: the incarnation decides, the generation breaks ties. */
    predicate NewerThan(other: Version) {
      if incarnation == other.incarnation
      then generation > other.generation
      else incarnation > other.incarnation
    }
  }

  const NO_VERSION := Version(0, 0)

  /**
   NewerThan is a strict total order whose least element is the "no bundle" version. Whatever a restarted
   sender sends is newer than all it sent before.
   */
  lemma NewerThanIsStrictTotalOrder(a: Version, b: Version, c: Version)
    ensures !a.NewerThan(a)
    ensures a.NewerThan(b) && b.NewerThan(c) ==> a.NewerThan(c)
    ensures a.NewerThan(b) || b.NewerThan(a) || a == b
    ensures a != NO_VERSION ==> a.NewerThan(NO_VERSION)
    ensures a.incarnation > b.incarnation ==> a.NewerThan(b)
    ensures a.incarnation == b.incarnation && a.generation > b.generation ==> a.NewerThan(b)
  {
  }
}

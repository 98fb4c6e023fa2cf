/** The lowest level any subscriber asks for. */
module SubscriberLevels {

  const NO_SUB_SENTINEL := 127

  /** m is the least of the sentinel and the given levels. */
  ghost predicate IsMinSub(m: int, levels: set<int>) {
    && (m == NO_SUB_SENTINEL || m in levels)
    && m <= NO_SUB_SENTINEL
    && forall l :: l in levels ==> m <= l
  }

  ghost function MinSub(levels: set<int>): (m: int)
    ensures IsMinSub(m, levels)
  {
    if !exists x :: x in levels then NO_SUB_SENTINEL
    else
      var x :| x in levels;
      var m := MinSub(levels - {x});
      assert forall l :: l in levels ==> l == x || l in levels - {x};
      if x < m then x else m
  }
}

/** An allocator of small numbers that are used again once they are released. */
module IdSets {

  /** The numbers handed out: below the mark and not on the stack of released ones. */
  function LiveIds(used: nat, unused: seq<nat>): set<nat> {
    set i: nat | 0 <= i < used && i !in unused
  }

  ghost predicate Stacked(used: nat, unused: seq<nat>) {
    && (forall k :: 0 <= k < |unused| ==> unused[k] < used)
    && (forall j, k :: 0 <= j < k < |unused| ==> unused[j] != unused[k])
  }

  class IdSet {
    var usedId: nat
    var unusedIds: seq<nat>

    ghost predicate Valid()
      reads this
    {
      Stacked(usedId, unusedIds)
    }

    /** The numbers in use. */
    ghost function Live(): set<nat>
      reads this
    {
      LiveIds(usedId, unusedIds)
    }

    constructor ()
      ensures Valid() && Live() == {}
    {
      usedId, unusedIds := 0, [];
    }

    /** A number that is not in use, and is from now on. */
    method AcquireId() returns (id: nat)
      requires Valid()
      modifies this
      ensures Valid() && id !in old(Live()) && Live() == old(Live()) + {id}
    {
      if |unusedIds| == 0 {
        id := usedId;
        usedId := usedId + 1;
      } else {
        id := unusedIds[|unusedIds| - 1];
        PoppedIsFree(usedId, unusedIds);
        unusedIds := unusedIds[..|unusedIds| - 1];
      }
    }

    method ReleaseId(id: nat)
      requires Valid() && id in Live()
      modifies this
      ensures Valid() && Live() == old(Live()) - {id}
    {
      unusedIds := unusedIds + [id];
    }
  }

  lemma PoppedIsFree(used: nat, unused: seq<nat>)
    requires Stacked(used, unused) && unused != []
    ensures var n := |unused| - 1;
      && unused[n] !in LiveIds(used, unused)
      && LiveIds(used, unused[..n]) == LiveIds(used, unused) + {unused[n]}
  {
  }
}

// The mutable tracker of one (metric, label) pair and the sketches it owns.
module Trackers {
  import opened Hashing
  import opened Settings
  import SlidingWindow

  // A HyperLogLog sketch, known only by what has been inserted into it. `owner` is the tracker that
  // holds it, so that no two trackers share a sketch.
  class Sketch {
    var inserted: seq<Hash>
    ghost var owner: object?

    constructor ()
      ensures inserted == [] && owner == null
    {
      inserted, owner := [], null;
    }

    method InsertHash(h: Hash)
      modifies `inserted
      ensures inserted == old(inserted) + [h]
    {
      inserted := inserted + [h];
    }

    function Estimate(est: SlidingWindow.Estimator): nat
      reads this
    {
      est(inserted)
    }
  }

  class Tracker {
    ghost const key: Key
    var current: Sketch
    var previous: Sketch
    var cachedCurr: nat
    var cachedPrev: nat
    var insertCount: nat
    var idleEpochs: nat

    ghost predicate Valid()
      reads this, current, previous
    {
      current != previous && current.owner == this && previous.owner == this
    }

    ghost function State(): SlidingWindow.Window
      reads this, current, previous
    {
      SlidingWindow.Window(current.inserted, previous.inserted, cachedCurr, cachedPrev, insertCount, idleEpochs)
    }

    // A well-formed tracker with window `w`.
    ghost predicate Holds(w: SlidingWindow.Window)
      reads this, current, previous
    {
      Valid() && State() == w
    }

    constructor (ghost key: Key)
      ensures this.key == key && Holds(SlidingWindow.EMPTY_WINDOW)
      ensures fresh(current) && fresh(previous)
    {
      this.key := key;
      current := new Sketch();
      previous := new Sketch();
      cachedCurr, cachedPrev, insertCount, idleEpochs := 0, 0, 0, 0;
      new;
      current.owner, previous.owner := this, this;
    }

    method Insert(est: SlidingWindow.Estimator, h: Hash, ghost w: SlidingWindow.Window) returns (curr: nat, prev: nat)
      requires Holds(w)
      modifies this, current
      ensures Holds(SlidingWindow.Insert(est, w, h)) && current == old(current) && previous == old(previous)
      ensures curr == cachedCurr && prev == cachedPrev
    {
      current.InsertHash(h);
      insertCount := insertCount + 1;
      if insertCount <= SlidingWindow.ESTIMATE_INTERVAL || insertCount % SlidingWindow.ESTIMATE_INTERVAL == 0 {
        cachedCurr := current.Estimate(est);
      }
      return cachedCurr, cachedPrev;
    }

    // `next` is a fresh sketch from the pool.
    method Rotate(next: Sketch, ghost w: SlidingWindow.Window) returns (idle: bool)
      requires Holds(w)
      requires next.inserted == [] && next.owner == null
      modifies this, next`owner
      ensures Holds(SlidingWindow.Rotate(w)) && current == next && previous == old(current)
      ensures idle == (w.insertCount == 0) && idleEpochs == SlidingWindow.Rotate(w).idleEpochs
    {
      idle := insertCount == 0;
      if idle {
        idleEpochs := idleEpochs + 1;
      } else {
        idleEpochs := 0;
      }
      cachedPrev := cachedCurr;
      cachedCurr := 0;
      insertCount := 0;
      previous := current;
      current := next;
      next.owner := this;
    }
  }
}

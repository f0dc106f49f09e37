/** The simulator's mutable objects below a cache: the clock, the counters, and one
    set of lines, updated in place and proved against the value-level model. */
module CacheSets {
  import opened Constants
  import opened LineSets
  import opened CacheModel

  /** The configuration and the one clock everybody shares. */
  class CacheConstants {
    const cfg: Config
    var cycles: nat

    constructor (cfg: Config)
      ensures this.cfg == cfg && cycles == 0
    {
      this.cfg := cfg;
      cycles := 0;
    }

    method Tick()
      modifies this
      ensures cycles == old(cycles) + 1
    {
      cycles := cycles + 1;
    }
  }

  /** The counters all caches and the bus share. */
  class CacheStats {
    var numHit: nat
    var numMiss: nat
    var numFlush: nat
    var numEvict: nat
    var numCacheShare: nat
    var numMainMemoryUses: nat
    var numExclusiveToModifiedTransitions: nat
    var numBusRequests: nat

    ghost function View(): Stats
      reads this
    {
      Stats(numHit, numMiss, numFlush, numEvict, numCacheShare, numMainMemoryUses,
            numExclusiveToModifiedTransitions, numBusRequests)
    }

    constructor ()
      ensures View() == NO_STATS
    {
      numHit, numMiss, numFlush, numEvict := 0, 0, 0, 0;
      numCacheShare, numMainMemoryUses, numExclusiveToModifiedTransitions, numBusRequests := 0, 0, 0, 0;
    }
  }

  /** One set of lines, oldest insertion first.  `owner` names the cache it belongs to. */
  class CacheSet {
    const consts: CacheConstants
    ghost const owner: nat
    var allLines: LineSet

    constructor (consts: CacheConstants, ghost owner: nat)
      ensures this.consts == consts && this.owner == owner && allLines == []
    {
      this.consts := consts;
      this.owner := owner;
      allLines := [];
    }

    method IsFull() returns (full: bool)
      ensures full == LineSets.IsFull(allLines, consts.cfg.numLinesInSet)
      ensures full <==> && consts.cfg.numLinesInSet <= |allLines|
                        && forall n :: 0 <= n < |allLines| ==> allLines[n].state == Modified
    {
      if |allLines| < consts.cfg.numLinesInSet {
        return false;
      }
      for i := 0 to |allLines|
        invariant forall k :: 0 <= k < i ==> allLines[k].state == Modified
      {
        if allLines[i].state != Modified {
          return false;
        }
      }
      return true;
    }

    method HasLine(tag: nat) returns (has: bool)
      ensures has == LineSets.HasLine(allLines, tag)
    {
      for i := 0 to |allLines|
        invariant forall k :: 0 <= k < i ==> allLines[k].tag != tag
      {
        if allLines[i].tag == tag {
          return true;
        }
      }
      return false;
    }

    /** The line with this tag, which becomes the most recently used. */
    method GetLine(tag: nat) returns (line: Option<nat>)
      modifies this`allLines
      ensures line == if LineSets.HasLine(old(allLines), tag) then Some(Find(old(allLines), tag)) else None
      ensures allLines == Touch(old(allLines), tag, consts.cycles) && |allLines| == |old(allLines)|
    {
      for i := 0 to |allLines|
        invariant allLines == old(allLines)
        invariant forall k :: 0 <= k < i ==> allLines[k].tag != tag
      {
        if allLines[i].tag == tag {
          FindIsFirst(allLines, tag, i);
          allLines := allLines[i := allLines[i].(lastUsed := consts.cycles)];
          return Some(i);
        }
      }
      return None;
    }

    method SetState(i: nat, st: State)
      requires i < |allLines|
      modifies this`allLines
      ensures allLines == old(allLines)[i := old(allLines)[i].(state := st)]
    {
      allLines := allLines[i := allLines[i].(state := st)];
    }

    /** The body of a cache's query loop: is this set's line for the tag in state `st`? */
    method QueryLine(tag: nat, st: State) returns (found: bool)
      modifies this`allLines
      ensures found == (LineSets.HasLine(old(allLines), tag) && StateIn(old(allLines), tag) == st)
      ensures allLines == Touch(old(allLines), tag, consts.cycles)
    {
      var has := HasLine(tag);
      if has {
        var line := GetLine(tag);
        return allLines[line.value].state == st;
      }
      return false;
    }

    /** The body of a cache's loop that sets the state of every line with the tag. */
    method AssignLine(tag: nat, st: State)
      modifies this`allLines
      ensures allLines == Assign(old(allLines), tag, st, consts.cycles)
    {
      var has := HasLine(tag);
      if has {
        var line := GetLine(tag);
        SetState(line.value, st);
      }
    }

    /** Whether the line an eviction would remove is modified; only a set at capacity evicts. */
    method EvictLineModified() returns (modified: bool)
      requires consts.cfg.Valid()
      ensures modified == VictimIsModified(allLines, consts.cfg.numLinesInSet)
      ensures modified <==> exists v :: && 0 <= v < |allLines| == consts.cfg.numLinesInSet && allLines[v].state == Modified
                                        && (forall n :: 0 <= n < |allLines| ==> allLines[v].lastUsed <= allLines[n].lastUsed)
                                        && (forall n :: 0 <= n < v ==> allLines[v].lastUsed < allLines[n].lastUsed)
    {
      if |allLines| != consts.cfg.numLinesInSet {
        return false;
      }
      var victim := LeastRecentlyUsed();
      return allLines[victim].state == Modified;
    }

    /** The scan both eviction methods make: the first line with the least timestamp. */
    method LeastRecentlyUsed() returns (victim: nat)
      requires |allLines| > 0
      ensures victim < |allLines| && victim == Lru(allLines)
    {
      // No timestamp seen yet is larger than every timestamp.
      var leastRecentCycle: Option<nat> := None;
      victim := 0;
      for i := 0 to |allLines|
        invariant i == 0 ==> leastRecentCycle == None
        invariant i > 0 ==> victim < i && victim == Lru(allLines[..i]) && leastRecentCycle == Some(allLines[victim].lastUsed)
      {
        assert i > 0 ==> allLines[..i + 1][..i] == allLines[..i];
        if leastRecentCycle.None? || allLines[i].lastUsed < leastRecentCycle.value {
          leastRecentCycle := Some(allLines[i].lastUsed);
          victim := i;
        }
      }
      assert allLines[..|allLines|] == allLines;
    }

    method EvictLRULine()
      requires |allLines| > 0
      modifies this`allLines
      ensures allLines == Evict(old(allLines))
    {
      var victim := LeastRecentlyUsed();
      allLines := allLines[..victim] + allLines[victim + 1..];
    }

    method AddLine(line: Line)
      requires consts.cfg.Valid()
      modifies this`allLines
      ensures allLines == LineSets.AddLine(old(allLines), line, consts.cfg.numLinesInSet)
    {
      if |allLines| == consts.cfg.numLinesInSet {
        EvictLRULine();
      }
      allLines := allLines + [line];
    }
  }
}

/** The contents of one cache set as a value, and what each set operation does to it. */
module LineSets {

  datatype State = Invalid | Shared | Modified | Exclusive | Owned

  datatype Line = Line(rawAddress: nat, setIndex: nat, tag: nat, state: State, lastUsed: nat)

  type LineSet = seq<Line>

  /** Index of the first line with this tag; the length when there is none. */
  function Find(s: LineSet, tag: nat): (i: nat)
    ensures i <= |s|
    ensures forall k :: 0 <= k < i ==> s[k].tag != tag
    ensures i < |s| ==> s[i].tag == tag
  {
    if |s| == 0 || s[0].tag == tag then 0 else 1 + Find(s[1..], tag)
  }

  predicate HasLine(s: LineSet, tag: nat) {
    Find(s, tag) < |s|
  }

  /** The state a set gives a tag; a tag without a line is as good as invalid. */
  function StateIn(s: LineSet, tag: nat): State {
    if HasLine(s, tag) then s[Find(s, tag)].state else Invalid
  }

  /** The side effect of a lookup: the line found becomes the most recently used. */
  function Touch(s: LineSet, tag: nat, cycle: nat): LineSet {
    if HasLine(s, tag) then s[Find(s, tag) := s[Find(s, tag)].(lastUsed := cycle)] else s
  }

  /** Lookup followed by a state change. */
  function Assign(s: LineSet, tag: nat, st: State, cycle: nat): LineSet {
    if HasLine(s, tag) then s[Find(s, tag) := s[Find(s, tag)].(lastUsed := cycle, state := st)] else s
  }

  /** At capacity with every line modified. */
  predicate IsFull(s: LineSet, ways: nat) {
    ways <= |s| && forall i :: 0 <= i < |s| ==> s[i].state == Modified
  }

  /** A set at capacity, all of it modified, that has to lose a line to take this tag. */
  predicate DirtyFull(ways: nat, s: LineSet, tag: nat) {
    |s| == ways && forall n :: 0 <= n < |s| ==> s[n].state == Modified && s[n].tag != tag
  }

  /** Index of the first line with the least timestamp. */
  function Lru(s: LineSet): (r: nat)
    requires |s| > 0
    ensures r < |s|
    ensures forall k :: 0 <= k < |s| ==> s[r].lastUsed <= s[k].lastUsed
    ensures forall k :: 0 <= k < r ==> s[r].lastUsed < s[k].lastUsed
  {
    var n := |s| - 1;
    if n == 0 then 0
    else
      var r := Lru(s[..n]);
      assert forall k :: 0 <= k < n ==> s[..n][k] == s[k];
      if s[n].lastUsed < s[r].lastUsed then n else r
  }

  function Evict(s: LineSet): LineSet
    requires |s| > 0
  {
    s[..Lru(s)] + s[Lru(s) + 1..]
  }

  predicate VictimIsModified(s: LineSet, ways: nat)
    requires 1 <= ways
  {
    |s| == ways && s[Lru(s)].state == Modified
  }

  function AddLine(s: LineSet, line: Line, ways: nat): LineSet
    requires 1 <= ways
  {
    (if |s| == ways then Evict(s) else s) + [line]
  }

  ghost predicate DistinctTags(s: LineSet) {
    forall i, j :: 0 <= i < j < |s| ==> s[i].tag != s[j].tag
  }

  /** Same lines in the same order, up to state and timestamp. */
  ghost predicate SameLines(s: LineSet, t: LineSet) {
    |s| == |t|
    && forall i :: 0 <= i < |s| ==> s[i].tag == t[i].tag && s[i].rawAddress == t[i].rawAddress && s[i].setIndex == t[i].setIndex
  }

  // ---------------------------------------------------------------------
  // What lookups return after each operation
  // ---------------------------------------------------------------------

  lemma FindIsFirst(s: LineSet, tag: nat, i: nat)
    requires i < |s| && s[i].tag == tag
    requires forall k :: 0 <= k < i ==> s[k].tag != tag
    ensures Find(s, tag) == i
  {
  }

  lemma SameLinesSameFind(s: LineSet, t: LineSet, tag: nat)
    requires SameLines(s, t)
    ensures Find(s, tag) == Find(t, tag)
  {
    var i := Find(s, tag);
    if i < |s| {
      FindIsFirst(t, tag, i);
    }
  }

  /** A touch changes no state; only the timestamp of the line found moves. */
  lemma TouchKeepsStates(s: LineSet, tag: nat, cycle: nat)
    ensures SameLines(s, Touch(s, tag, cycle))
    ensures forall t :: Find(Touch(s, tag, cycle), t) == Find(s, t)
    ensures forall t :: StateIn(Touch(s, tag, cycle), t) == StateIn(s, t)
  {
    forall t
      ensures Find(Touch(s, tag, cycle), t) == Find(s, t)
      ensures StateIn(Touch(s, tag, cycle), t) == StateIn(s, t)
    {
      SameLinesSameFind(s, Touch(s, tag, cycle), t);
    }
  }

  lemma AssignSetsOneState(s: LineSet, tag: nat, st: State, cycle: nat)
    ensures SameLines(s, Assign(s, tag, st, cycle))
    ensures forall t :: Find(Assign(s, tag, st, cycle), t) == Find(s, t)
    ensures forall t :: StateIn(Assign(s, tag, st, cycle), t)
                        == if t == tag && HasLine(s, tag) then st else StateIn(s, t)
  {
    var u := Assign(s, tag, st, cycle);
    forall t
      ensures Find(u, t) == Find(s, t)
      ensures StateIn(u, t) == if t == tag && HasLine(s, tag) then st else StateIn(s, t)
    {
      SameLinesSameFind(s, u, t);
    }
  }

  lemma EvictShifts(s: LineSet)
    requires |s| > 0
    ensures |Evict(s)| == |s| - 1
    ensures forall k {:trigger Evict(s)[k]} :: 0 <= k < |s| - 1 ==> Evict(s)[k] == if k < Lru(s) then s[k] else s[k + 1]
  {
  }

  lemma EvictDropsOneTag(s: LineSet, tag: nat)
    requires |s| > 0 && DistinctTags(s)
    ensures DistinctTags(Evict(s)) && |Evict(s)| == |s| - 1
    ensures tag != s[Lru(s)].tag ==> HasLine(Evict(s), tag) == HasLine(s, tag) && StateIn(Evict(s), tag) == StateIn(s, tag)
    ensures tag == s[Lru(s)].tag ==> !HasLine(Evict(s), tag)
  {
    EvictShifts(s);
    var r, e, i := Lru(s), Evict(s), Find(s, tag);
    hide Evict, Lru, Find;
    if tag == s[r].tag {
      assert forall k :: 0 <= k < |e| ==> e[k].tag != tag;
    } else if i < |s| {
      FindIsFirst(e, tag, if i < r then i else i - 1);
    }
  }

  lemma AppendAddsOneTag(s: LineSet, line: Line, tag: nat)
    requires DistinctTags(s) && !HasLine(s, line.tag)
    ensures DistinctTags(s + [line])
    ensures HasLine(s + [line], tag) == (tag == line.tag || HasLine(s, tag))
    ensures StateIn(s + [line], tag) == if tag == line.tag then line.state else StateIn(s, tag)
  {
    var u, i := s + [line], Find(s, tag);
    if i < |s| {
      FindIsFirst(u, tag, i);
    } else if tag == line.tag {
      FindIsFirst(u, tag, |s|);
    }
  }

  // ---------------------------------------------------------------------
  // LRU replacement
  // ---------------------------------------------------------------------

  /** Installing a line in a set at capacity removes exactly the first least
      recently used line, keeps the others in order, and keeps the new line. */
  lemma InstallReplacesLeastRecentlyUsed(s: LineSet, line: Line, ways: nat)
    requires 1 <= ways && |s| <= ways
    ensures var u := AddLine(s, line, ways);
            |u| <= ways && u[|u| - 1] == line
    ensures |s| < ways ==> AddLine(s, line, ways)[..|s|] == s
    ensures |s| == ways ==>
              exists v :: 0 <= v < |s|
                          && (forall k :: 0 <= k < |s| ==> s[v].lastUsed <= s[k].lastUsed)
                          && (forall k :: 0 <= k < v ==> s[v].lastUsed < s[k].lastUsed)
                          && AddLine(s, line, ways)[..|s| - 1] == s[..v] + s[v + 1..]
  {
    if |s| == ways {
      var v := Lru(s);
      assert AddLine(s, line, ways)[..|s| - 1] == s[..v] + s[v + 1..];
    }
  }

  /** Under the capacity bound, a full set always predicts a modified victim:
      the condition charged at request time and the one acted on at completion agree. */
  lemma FullSetHasModifiedVictim(s: LineSet, ways: nat)
    requires 1 <= ways && |s| <= ways && IsFull(s, ways)
    ensures VictimIsModified(s, ways)
  {
  }
}

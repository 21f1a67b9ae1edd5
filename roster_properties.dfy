/** Properties relating several roster handlers, and the worked examples of their behaviour. */
module RosterProperties {
  import opened Wrappers
  import opened Roster

  /** Incrementing and then decrementing the same counter restores the roster exactly when the counter was non-negative. */
  lemma IncDecMatchRestores(data: seq<Player>, rowIndex: int)
    requires InRange(data, rowIndex)
    ensures DecMatch(IncMatch(data, rowIndex), rowIndex) == data <==> data[rowIndex].slotMatch >= 0
  {
  }

  lemma IncDecVipRestores(data: seq<Player>, rowIndex: int)
    requires InRange(data, rowIndex)
    ensures DecVip(IncVip(data, rowIndex), rowIndex) == data <==> data[rowIndex].slotVip >= 0
  {
  }

  /** Decrementing and then incrementing restores the roster exactly when the counter was not at the floor. */
  lemma DecIncMatchRestores(data: seq<Player>, rowIndex: int)
    requires InRange(data, rowIndex)
    ensures IncMatch(DecMatch(data, rowIndex), rowIndex) == data <==> data[rowIndex].slotMatch >= 1
  {
  }

  lemma DecIncVipRestores(data: seq<Player>, rowIndex: int)
    requires InRange(data, rowIndex)
    ensures IncVip(DecVip(data, rowIndex), rowIndex) == data <==> data[rowIndex].slotVip >= 1
  {
  }

  /** A decrement changes nothing exactly when the counter already sits at zero. */
  lemma DecMatchFixedAtFloor(data: seq<Player>, rowIndex: int)
    requires InRange(data, rowIndex)
    ensures DecMatch(data, rowIndex) == data <==> data[rowIndex].slotMatch == 0
  {
  }

  lemma DecVipFixedAtFloor(data: seq<Player>, rowIndex: int)
    requires InRange(data, rowIndex)
    ensures DecVip(data, rowIndex) == data <==> data[rowIndex].slotVip == 0
  {
  }

  /** Repeated decrements stop at the floor: a second decrement of a counter at most 1 changes nothing. */
  lemma DecMatchIdempotentAtFloor(data: seq<Player>, rowIndex: int)
    requires InRange(data, rowIndex) && data[rowIndex].slotMatch <= 1
    ensures DecMatch(DecMatch(data, rowIndex), rowIndex) == DecMatch(data, rowIndex)
  {
  }

  lemma DecVipIdempotentAtFloor(data: seq<Player>, rowIndex: int)
    requires InRange(data, rowIndex) && data[rowIndex].slotVip <= 1
    ensures DecVip(DecVip(data, rowIndex), rowIndex) == DecVip(data, rowIndex)
  {
  }

  /** Two rosters list the same players by name and id, in the same order. */
  predicate SameIdentities(a: seq<Player>, b: seq<Player>) {
    |a| == |b| && forall k :: 0 <= k < |a| ==> a[k].nama == b[k].nama && a[k].id == b[k].id
  }

  /** No counter handler touches a name or an id; match handlers keep every VIP count, VIP handlers every match count. */
  lemma CounterHandlersKeepIdentities(data: seq<Player>, rowIndex: int)
    ensures SameIdentities(IncMatch(data, rowIndex), data)
    ensures SameIdentities(DecMatch(data, rowIndex), data)
    ensures SameIdentities(IncVip(data, rowIndex), data)
    ensures SameIdentities(DecVip(data, rowIndex), data)
    ensures forall k :: 0 <= k < |data| ==>
      IncMatch(data, rowIndex)[k].slotVip == data[k].slotVip &&
      DecMatch(data, rowIndex)[k].slotVip == data[k].slotVip &&
      IncVip(data, rowIndex)[k].slotMatch == data[k].slotMatch &&
      DecVip(data, rowIndex)[k].slotMatch == data[k].slotMatch
  {
  }

  /** Handlers on different counters commute. */
  lemma MatchAndVipCommute(data: seq<Player>, i: int, j: int)
    ensures IncMatch(IncVip(data, j), i) == IncVip(IncMatch(data, i), j)
    ensures DecMatch(DecVip(data, j), i) == DecVip(DecMatch(data, i), j)
    ensures IncMatch(DecVip(data, j), i) == DecVip(IncMatch(data, i), j)
    ensures DecMatch(IncVip(data, j), i) == IncVip(DecMatch(data, i), j)
  {
  }

  /** Every counter of every row is at least zero. */
  predicate AllNonNegative(data: seq<Player>) {
    forall k :: 0 <= k < |data| ==> data[k].slotVip >= 0 && data[k].slotMatch >= 0
  }

  /** The counter handlers and delete keep a roster whose counters are all non-negative that way. */
  lemma HandlersKeepNonNegative(data: seq<Player>, rowIndex: int)
    requires AllNonNegative(data)
    ensures AllNonNegative(IncMatch(data, rowIndex))
    ensures AllNonNegative(DecMatch(data, rowIndex))
    ensures AllNonNegative(IncVip(data, rowIndex))
    ensures AllNonNegative(DecVip(data, rowIndex))
    ensures AllNonNegative(Delete(data, rowIndex))
  {
  }

  /** Add keeps counters non-negative exactly when the submitted numbers are non-negative. */
  lemma AddKeepsNonNegative(data: seq<Player>, form: NewPlayer)
    requires AllNonNegative(data) && NumbersReadable(form) && Accepts(form)
    ensures AllNonNegative(Add(data, form)) <==> BuildEntry(form).slotVip >= 0 && BuildEntry(form).slotMatch >= 0
  {
  }

  /** Deleting the entry just added gives back the roster from before the add. */
  lemma DeleteUndoesAdd(data: seq<Player>, form: NewPlayer)
    requires NumbersReadable(form) && Accepts(form)
    ensures Delete(Add(data, form), |data|) == data
  {
  }

  /** One more VIP slot for Alice: [Alice 2/1] becomes [Alice 3/1]. */
  lemma ExampleIncrementVip()
    ensures IncVip([Player("Alice", None, 2, 1)], 0) == [Player("Alice", None, 3, 1)]
  {
  }

  /** Submitting Bob with id "7", "3" VIP slots and "0" match slots appends {Bob, 7, 3, 0}. */
  lemma ExampleAddBob()
    ensures NumbersReadable(NewPlayer("Bob", "7", "3", "0"))
    ensures Add([], NewPlayer("Bob", "7", "3", "0")) == [Player("Bob", Some(7), 3, 0)]
  {
  }

  /** The form accepts a negative count: the roster can then hold a negative counter. */
  lemma ExampleAddNegative()
    ensures NumbersReadable(NewPlayer("Ann", "", "-1", "0"))
    ensures Add([], NewPlayer("Ann", "", "-1", "0")) == [Player("Ann", None, -1, 0)]
  {
  }

  /** With the name empty the form is rejected before any number is read, whatever the other inputs hold. */
  lemma ExampleRejectBeforeNumber(a: Player)
    ensures Add([a], NewPlayer("", "abc", "1.5", "")) == [a]
  {
  }

  /** Removing the first of two rows leaves the second. */
  lemma ExampleDeleteFirst(a: Player, b: Player)
    ensures Delete([a, b], 0) == [b]
  {
  }
}

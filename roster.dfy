/**
 * The roster-update logic of the `Home` component in app/page.tsx: the
 * `Player` record, the four counter handlers, delete, and the add handler's
 * validation and entry construction. Every handler is a whole-roster transform
 * `prev => next`, as the source passes it to `setData`.
 */
module Roster {
  import opened Wrappers
  import opened Numbers

  /** One roster entry; `id` is absent when the form's id input was empty. */
  datatype Player = Player(nama: string, id: Option<int>, slotVip: int, slotMatch: int)

  /** The creation form's state: four uncommitted text inputs. */
  datatype NewPlayer = NewPlayer(nama: string, id: string, slotVip: string, slotMatch: string)

  const EmptyForm := NewPlayer("", "", "", "")

  /** `Math.max(a, b)` on integers. */
  function Max(a: int, b: int): (m: int)
    ensures m >= a && m >= b && (m == a || m == b)
  {
    if a >= b then a else b
  }

  /**
   * `prev.map((row, idx) => idx === rowIndex ? f(row) : row)`: the row at
   * `rowIndex` is replaced by `f` of it, every other row is kept.
   */
  function MapAt(data: seq<Player>, rowIndex: int, f: Player -> Player): (r: seq<Player>)
    ensures |r| == |data|
    ensures InRange(data, rowIndex) ==> r == data[rowIndex := f(data[rowIndex])]
    ensures !InRange(data, rowIndex) ==> r == data
  {
    seq(|data|, k requires 0 <= k < |data| => if k == rowIndex then f(data[k]) else data[k])
  }

  predicate InRange(data: seq<Player>, rowIndex: int) {
    0 <= rowIndex < |data|
  }

  /** handleIncrement: one more match slot for the row at `rowIndex`. */
  function IncMatch(data: seq<Player>, rowIndex: int): (r: seq<Player>)
    ensures |r| == |data|
    ensures forall k :: 0 <= k < |data| && k != rowIndex ==> r[k] == data[k]
    ensures InRange(data, rowIndex) ==>
      r[rowIndex].slotMatch == data[rowIndex].slotMatch + 1 &&
      r[rowIndex] == data[rowIndex].(slotMatch := r[rowIndex].slotMatch)
    ensures !InRange(data, rowIndex) ==> r == data
  {
    MapAt(data, rowIndex, (row: Player) => row.(slotMatch := row.slotMatch + 1))
  }

  /** handleDecrement: one match slot fewer, never going below zero. */
  function DecMatch(data: seq<Player>, rowIndex: int): (r: seq<Player>)
    ensures |r| == |data|
    ensures forall k :: 0 <= k < |data| && k != rowIndex ==> r[k] == data[k]
    ensures InRange(data, rowIndex) ==>
      r[rowIndex].slotMatch >= 0 &&
      r[rowIndex].slotMatch == Max(0, data[rowIndex].slotMatch - 1) &&
      r[rowIndex] == data[rowIndex].(slotMatch := r[rowIndex].slotMatch)
    ensures !InRange(data, rowIndex) ==> r == data
  {
    MapAt(data, rowIndex, (row: Player) => row.(slotMatch := Max(0, row.slotMatch - 1)))
  }

  /** handleIncrementVip: one more VIP slot for the row at `rowIndex`. */
  function IncVip(data: seq<Player>, rowIndex: int): (r: seq<Player>)
    ensures |r| == |data|
    ensures forall k :: 0 <= k < |data| && k != rowIndex ==> r[k] == data[k]
    ensures InRange(data, rowIndex) ==>
      r[rowIndex].slotVip == data[rowIndex].slotVip + 1 &&
      r[rowIndex] == data[rowIndex].(slotVip := r[rowIndex].slotVip)
    ensures !InRange(data, rowIndex) ==> r == data
  {
    MapAt(data, rowIndex, (row: Player) => row.(slotVip := row.slotVip + 1))
  }

  /** handleDecrementVip: one VIP slot fewer, never going below zero. */
  function DecVip(data: seq<Player>, rowIndex: int): (r: seq<Player>)
    ensures |r| == |data|
    ensures forall k :: 0 <= k < |data| && k != rowIndex ==> r[k] == data[k]
    ensures InRange(data, rowIndex) ==>
      r[rowIndex].slotVip >= 0 &&
      r[rowIndex].slotVip == Max(0, data[rowIndex].slotVip - 1) &&
      r[rowIndex] == data[rowIndex].(slotVip := r[rowIndex].slotVip)
    ensures !InRange(data, rowIndex) ==> r == data
  {
    MapAt(data, rowIndex, (row: Player) => row.(slotVip := Max(0, row.slotVip - 1)))
  }

  /**
   * `prev.filter((_, idx) => idx !== rowIndex)` over `data`, where the first
   * element of `data` sits at position `base` of the whole roster.
   */
  function FilterIndex(data: seq<Player>, rowIndex: int, base: int): (r: seq<Player>)
    ensures |r| == if base <= rowIndex < base + |data| then |data| - 1 else |data|
    decreases |data|
  {
    if data == [] then []
    else (if base == rowIndex then [] else [data[0]]) + FilterIndex(data[1..], rowIndex, base + 1)
  }

  /** The index filter drops exactly the element at `rowIndex`, if there is one, and keeps the order of the rest. */
  lemma {:induction false} FilterIndexSpec(data: seq<Player>, rowIndex: int, base: int)
    ensures FilterIndex(data, rowIndex, base) ==
      if base <= rowIndex < base + |data| then data[..rowIndex - base] + data[rowIndex - base + 1..]
      else data
    decreases |data|
  {
    if data != [] {
      FilterIndexSpec(data[1..], rowIndex, base + 1);
      if base == rowIndex {
        assert data[..0] + data[1..] == data[1..];
      } else if base < rowIndex < base + |data| {
        var j := rowIndex - base;
        assert data[1..][..j - 1] + data[1..][j..] == data[1..j] + data[j + 1..];
        assert [data[0]] + data[1..j] == data[..j];
        assert [data[0]] + (data[1..j] + data[j + 1..]) == data[..j] + data[j + 1..];
      } else {
        assert [data[0]] + data[1..] == data;
      }
    }
  }

  /** handleDeletePlayer: remove the row at `rowIndex`; any other index changes nothing. */
  function Delete(data: seq<Player>, rowIndex: int): (r: seq<Player>)
    ensures InRange(data, rowIndex) ==> r == data[..rowIndex] + data[rowIndex + 1..] && |r| == |data| - 1
    ensures !InRange(data, rowIndex) ==> r == data
  {
    FilterIndexSpec(data, rowIndex, 0);
    FilterIndex(data, rowIndex, 0)
  }

  /** The add handler's guard: name, VIP slots and match slots are all filled in. */
  predicate Accepts(form: NewPlayer) {
    form.nama != "" && form.slotVip != "" && form.slotMatch != ""
  }

  /** The guard never looks at the id input, and the cleared form fails it. */
  lemma GuardIgnoresId(form: NewPlayer, id: string)
    ensures Accepts(form.(id := id)) == Accepts(form)
    ensures !Accepts(EmptyForm)
    ensures !Accepts(form.(nama := "")) && !Accepts(form.(slotVip := "")) && !Accepts(form.(slotMatch := ""))
  {
  }

  /** Every numeric input is empty or a decimal numeral `Number` reads exactly. */
  predicate NumbersReadable(form: NewPlayer) {
    && (form.id == "" || ParseNumber(form.id).Some?)
    && (form.slotVip == "" || ParseNumber(form.slotVip).Some?)
    && (form.slotMatch == "" || ParseNumber(form.slotMatch).Some?)
  }

  /** The `newEntry` that handleAddPlayer builds from an accepted form. */
  function BuildEntry(form: NewPlayer): (p: Player)
    requires Accepts(form) && NumbersReadable(form)
    ensures p.nama == form.nama
    ensures p.id.None? <==> form.id == ""
    ensures p.id.Some? ==> ParseNumber(form.id) == Some(p.id.value)
    ensures ParseNumber(form.slotVip) == Some(p.slotVip)
    ensures ParseNumber(form.slotMatch) == Some(p.slotMatch)
  {
    Player(
      form.nama,
      if form.id != "" then Some(ParseNumber(form.id).value) else None,
      ParseNumber(form.slotVip).value,
      ParseNumber(form.slotMatch).value)
  }

  /** handleAddPlayer's effect on the roster: append the new entry, or nothing when the guard fails. */
  function Add(data: seq<Player>, form: NewPlayer): (r: seq<Player>)
    requires Accepts(form) ==> NumbersReadable(form)
    ensures !Accepts(form) ==> r == data
    ensures Accepts(form) ==> |r| == |data| + 1 && r[..|data|] == data && r[|data|] == BuildEntry(form)
  {
    if Accepts(form) then data + [BuildEntry(form)] else data
  }

  /** The form a user fills in to create `p`, with every number written as a template string would. */
  function FormOf(p: Player): NewPlayer {
    NewPlayer(
      p.nama,
      match p.id case None => "" case Some(n) => IntToString(n),
      IntToString(p.slotVip),
      IntToString(p.slotMatch))
  }

  /** Every player with a name can be entered through the form, and the form builds exactly it. */
  lemma BuildEntryFormOf(p: Player)
    requires p.nama != ""
    ensures Accepts(FormOf(p)) && NumbersReadable(FormOf(p))
    ensures BuildEntry(FormOf(p)) == p
  {
    ParseIntToString(p.slotVip);
    ParseIntToString(p.slotMatch);
    if p.id.Some? {
      ParseIntToString(p.id.value);
    }
  }
}

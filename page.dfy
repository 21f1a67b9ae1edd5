/**
 * The `Home` component's state: the roster `data` and the creation form
 * `newPlayer`. Each counter and delete handler replaces `data` (as `setData`
 * does) and leaves the form alone; each input handler replaces the form (as
 * `setNewPlayer` does) and leaves `data` alone; `HandleAddPlayer` replaces
 * both when the guard accepts the form.
 */
module Page {
  import opened Roster

  class Home {
    var data: seq<Player>
    var newPlayer: NewPlayer

    /** Initial state: an empty roster and an empty form. */
    constructor ()
      ensures data == [] && newPlayer == EmptyForm
    {
      data := [];
      newPlayer := EmptyForm;
    }

    method HandleIncrement(rowIndex: int)
      modifies this
      ensures data == IncMatch(old(data), rowIndex)
      ensures newPlayer == old(newPlayer)
    {
      data := IncMatch(data, rowIndex);
    }

    method HandleDecrement(rowIndex: int)
      modifies this
      ensures data == DecMatch(old(data), rowIndex)
      ensures newPlayer == old(newPlayer)
    {
      data := DecMatch(data, rowIndex);
    }

    method HandleIncrementVip(rowIndex: int)
      modifies this
      ensures data == IncVip(old(data), rowIndex)
      ensures newPlayer == old(newPlayer)
    {
      data := IncVip(data, rowIndex);
    }

    method HandleDecrementVip(rowIndex: int)
      modifies this
      ensures data == DecVip(old(data), rowIndex)
      ensures newPlayer == old(newPlayer)
    {
      data := DecVip(data, rowIndex);
    }

    method HandleDeletePlayer(rowIndex: int)
      modifies this
      ensures data == Delete(old(data), rowIndex)
      ensures newPlayer == old(newPlayer)
    {
      data := Delete(data, rowIndex);
    }

    /**
     * Submit the form: with a name, VIP slots and match slots filled in, append
     * the built entry and clear all four inputs; otherwise change nothing.
     */
    method HandleAddPlayer()
      requires Accepts(newPlayer) ==> NumbersReadable(newPlayer)
      modifies this
      ensures data == Add(old(data), old(newPlayer))
      ensures newPlayer == if Accepts(old(newPlayer)) then EmptyForm else old(newPlayer)
    {
      if !Accepts(newPlayer) {
        return;
      }
      var newEntry := BuildEntry(newPlayer);
      data := data + [newEntry];
      newPlayer := EmptyForm;
    }

    /** Typing into the name input. */
    method SetNama(value: string)
      modifies this
      ensures newPlayer == old(newPlayer).(nama := value) && data == old(data)
    {
      newPlayer := newPlayer.(nama := value);
    }

    /** Typing into the optional id input. */
    method SetId(value: string)
      modifies this
      ensures newPlayer == old(newPlayer).(id := value) && data == old(data)
    {
      newPlayer := newPlayer.(id := value);
    }

    /** Typing into the VIP slots input. */
    method SetSlotVip(value: string)
      modifies this
      ensures newPlayer == old(newPlayer).(slotVip := value) && data == old(data)
    {
      newPlayer := newPlayer.(slotVip := value);
    }

    /** Typing into the match slots input. */
    method SetSlotMatch(value: string)
      modifies this
      ensures newPlayer == old(newPlayer).(slotMatch := value) && data == old(data)
    {
      newPlayer := newPlayer.(slotMatch := value);
    }
  }

  /** Filling in the form for `p` and submitting it appends `p` and leaves the form empty. */
  method AddThroughForm(home: Home, p: Player)
    requires p.nama != ""
    modifies home
    ensures home.data == old(home.data) + [p] && home.newPlayer == EmptyForm
  {
    var form := FormOf(p);
    BuildEntryFormOf(p);
    home.SetNama(form.nama);
    home.SetId(form.id);
    home.SetSlotVip(form.slotVip);
    home.SetSlotMatch(form.slotMatch);
    assert home.newPlayer == form;
    home.HandleAddPlayer();
  }
}

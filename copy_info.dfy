/** The text the "Copy info" row action writes to the clipboard. */
module CopyInfo {
  import opened Wrappers
  import opened Numbers
  import opened Roster

  /** The id as the template string shows it: `player.id ?? "No ID"`. */
  function IdText(id: Option<int>): (t: string)
    ensures |t| > 0 && (t[0] == 'N' <==> id.None?)
    ensures id.Some? ==> ParseNumber(t) == Some(id.value)
  {
    match id
    case None => "No ID"
    case Some(n) => ParseIntToString(n); IntToString(n)
  }

  /** `${nama} - ID: ${id ?? "No ID"} - Slot VIP: ${slotVip} - Slot Match: ${slotMatch}` */
  function Summary(p: Player): (s: string)
    ensures |s| > |p.nama| && s[..|p.nama|] == p.nama
  {
    p.nama + (" - ID: " + (IdText(p.id) + (" - Slot VIP: " + (IntToString(p.slotVip)
      + (" - Slot Match: " + IntToString(p.slotMatch))))))
  }

  /** Equal strings that both start with a common prefix agree after it. */
  lemma DropPrefix(p: string, s: string, t: string)
    requires p + s == p + t
    ensures s == t
  {
    assert s == (p + s)[|p|..];
    assert t == (p + t)[|p|..];
  }

  /** The first space of `a + b` is the first character of `b` when `a` has none. */
  lemma FirstSpaceAt(a: string, b: string)
    requires ' ' !in a && |b| > 0 && b[0] == ' '
    ensures (a + b)[|a|] == ' '
    ensures forall k :: 0 <= k < |a| ==> (a + b)[k] != ' '
  {
  }

  /** A space-free head followed by a tail that starts with a space splits at the first space. */
  lemma SplitAtSpace(a: string, b: string, a': string, b': string)
    requires ' ' !in a && ' ' !in a'
    requires |b| > 0 && b[0] == ' ' && |b'| > 0 && b'[0] == ' '
    requires a + b == a' + b'
    ensures a == a' && b == b'
  {
    FirstSpaceAt(a, b);
    FirstSpaceAt(a', b');
    assert |a| == |a'|;
    assert a == (a + b)[..|a|];
    assert a' == (a' + b')[..|a'|];
    DropPrefix(a, b, b');
  }

  /**
   * For one name, the summary determines the whole player: the id (or its
   * absence) and both counters can be read back from the copied text.
   */
  lemma SummaryInjective(p: Player, q: Player)
    requires p.nama == q.nama && Summary(p) == Summary(q)
    ensures p == q
  {
    var restP := " - Slot VIP: " + (IntToString(p.slotVip) + (" - Slot Match: " + IntToString(p.slotMatch)));
    var restQ := " - Slot VIP: " + (IntToString(q.slotVip) + (" - Slot Match: " + IntToString(q.slotMatch)));
    DropPrefix(p.nama, " - ID: " + (IdText(p.id) + restP), " - ID: " + (IdText(q.id) + restQ));
    DropPrefix(" - ID: ", IdText(p.id) + restP, IdText(q.id) + restQ);
    var x, y := IdText(p.id) + restP, IdText(q.id) + restQ;
    assert x[0] == IdText(p.id)[0] && y[0] == IdText(q.id)[0];
    if p.id.None? {
      DropPrefix("No ID", restP, restQ);
    } else {
      SplitAtSpace(IntToString(p.id.value), restP, IntToString(q.id.value), restQ);
      IntToStringInjective(p.id.value, q.id.value);
    }
    DropPrefix(" - Slot VIP: ", IntToString(p.slotVip) + (" - Slot Match: " + IntToString(p.slotMatch)),
      IntToString(q.slotVip) + (" - Slot Match: " + IntToString(q.slotMatch)));
    SplitAtSpace(IntToString(p.slotVip), " - Slot Match: " + IntToString(p.slotMatch),
      IntToString(q.slotVip), " - Slot Match: " + IntToString(q.slotMatch));
    IntToStringInjective(p.slotVip, q.slotVip);
    DropPrefix(" - Slot Match: ", IntToString(p.slotMatch), IntToString(q.slotMatch));
    IntToStringInjective(p.slotMatch, q.slotMatch);
  }

  /** The copied text says "No ID" right after the name's " - ID: " exactly when the player has no id. */
  lemma SummaryShowsMissingId(p: Player)
    ensures p.id.None? <==> Summary(p)[|p.nama| + 7..|p.nama| + 12] == "No ID"
  {
    var s := Summary(p);
    var i := |p.nama| + 7;
    assert s[i..] == IdText(p.id) + (" - Slot VIP: " + (IntToString(p.slotVip)
      + (" - Slot Match: " + IntToString(p.slotMatch))));
    assert s[i..i + 5][0] == IdText(p.id)[0];
  }
}

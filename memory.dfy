/**
 * The per-contact conversation memory (memory.py): a JSON object that maps
 * each contact to its last `MAX_MESSAGES` messages. The file is the
 * `store` field of a class; every read-modify-write is one method.
 */
module Memory {
  /** `MAX_MESSAGES`: how many messages are kept per contact. */
  const MaxMessages: nat := 30

  /** One stored message, `{"role": ..., "content": ...}`. */
  datatype Entry = Entry(role: string, content: string)

  /** `conv[-MAX_MESSAGES:]`: the last 30 messages, or all of them when there are fewer. */
  function Window(conv: seq<Entry>): (w: seq<Entry>)
    ensures |w| <= MaxMessages
    ensures |conv| <= MaxMessages ==> w == conv
    ensures |conv| > MaxMessages ==> |w| == MaxMessages
  {
    if |conv| <= MaxMessages then conv else conv[|conv| - MaxMessages..]
  }

  /** The window is the tail of the conversation: nothing is reordered or altered. */
  lemma WindowIsSuffix(conv: seq<Entry>)
    ensures var w := Window(conv); w == conv[|conv| - |w|..]
    ensures forall k :: 0 <= k < |Window(conv)| ==> Window(conv)[k] == conv[|conv| - |Window(conv)| + k]
  {
  }

  /** A window of a window is the same window. */
  lemma WindowIdempotent(conv: seq<Entry>)
    ensures Window(Window(conv)) == Window(conv)
  {
  }

  /** Truncating before an append and again after it keeps the same messages as truncating once at the end. */
  lemma WindowAppend(conv: seq<Entry>, e: Entry)
    ensures Window(Window(conv) + [e]) == Window(conv + [e])
  {
    var w := Window(conv);
    if |conv| > MaxMessages {
      var n := |conv| + 1;
      assert (conv + [e])[n - MaxMessages..] == conv[n - MaxMessages..] + [e];
      assert (w + [e])[1..] == w[1..] + [e];
      assert w[1..] == conv[n - MaxMessages..];
    }
  }

  /** Appending one message: the new message is the last one kept, and the window only grows while it is short. */
  lemma AppendKeepsNewest(conv: seq<Entry>, e: Entry)
    ensures var w := Window(Window(conv) + [e]);
      w != [] && w[|w| - 1] == e &&
      |w| == (if |Window(conv)| < MaxMessages then |Window(conv)| + 1 else MaxMessages) &&
      w[..|w| - 1] == Window(conv)[|Window(conv)| + 1 - |w|..]
  {
  }

  /** The list stored after appending `es` one by one to `conv`. */
  function AppendAll(conv: seq<Entry>, es: seq<Entry>): seq<Entry>
    decreases |es|
  {
    if es == [] then conv else AppendAll(Window(conv + [es[0]]), es[1..])
  }

  /** However many messages are appended, the stored list is the last 30 of all of them. */
  lemma {:induction false} AppendAllWindow(conv: seq<Entry>, es: seq<Entry>)
    requires |conv| <= MaxMessages
    ensures AppendAll(conv, es) == Window(conv + es)
    decreases |es|
  {
    if es == [] {
      assert conv + es == conv;
    } else {
      var e, rest := es[0], es[1..];
      var next := Window(conv + [e]);
      assert AppendAll(conv, es) == Window(next + rest) by {
        AppendAllWindow(next, rest);
      }
      assert Window(next + rest) == Window(conv + es) by {
        AppendSuffix(conv + [e], rest);
        assert conv + [e] + rest == conv + es by {
          assert es == [e] + rest;
        }
      }
    }
  }

  /** Truncating a prefix first does not change the last 30 of a longer list. */
  lemma {:induction false} AppendSuffix(conv: seq<Entry>, rest: seq<Entry>)
    ensures Window(Window(conv) + rest) == Window(conv + rest)
    decreases |rest|
  {
    if rest == [] {
      assert Window(conv) + rest == Window(conv);
      assert conv + rest == conv;
      WindowIdempotent(conv);
    } else {
      var init, last := rest[..|rest| - 1], rest[|rest| - 1];
      assert rest == init + [last];
      AppendSuffix(conv, init);
      WindowAppend(Window(conv) + init, last);
      WindowAppend(conv + init, last);
      assert Window(conv) + rest == Window(conv) + init + [last];
      assert conv + rest == conv + init + [last];
    }
  }

  /** After 31 appends to an empty memory, the first message has been dropped and the other 30 are kept in order. */
  lemma ThirtyOneAppends(es: seq<Entry>)
    requires |es| == MaxMessages + 1
    ensures AppendAll([], es) == es[1..]
  {
    AppendAllWindow([], es);
    assert [] + es == es;
  }

  /** The memory file, as the map it holds. */
  class ConversationStore {
    /** The JSON object in `memory.json`: contact to stored messages. */
    var store: map<string, seq<Entry>>
    /** Every message appended per contact since its last reset. */
    ghost var log: map<string, seq<Entry>>

    /** Each stored list is the last 30 messages appended since the contact's last reset. */
    ghost predicate Valid()
      reads this
    {
      store.Keys == log.Keys &&
      forall c :: c in store ==> store[c] == Window(log[c])
    }

    /** `store.get(contact) or []` */
    function Stored(contact: string): (conv: seq<Entry>)
      reads this
      ensures contact !in store ==> conv == []
    {
      if contact in store then store[contact] else []
    }

    /** Everything appended for `contact` since its last reset. */
    ghost function Logged(contact: string): seq<Entry>
      reads this
    {
      if contact in log then log[contact] else []
    }

    /** A fresh memory file holds `{}`. */
    constructor ()
      ensures Valid() && store == map[]
    {
      store := map[];
      log := map[];
    }

    /** `get_history(contact)`: the last 30 stored messages of the contact; nothing changes. */
    method GetHistory(contact: string) returns (h: seq<Entry>)
      ensures h == Window(Stored(contact))
      ensures |h| <= MaxMessages && h == Stored(contact)[|Stored(contact)| - |h|..]
    {
      var conv := if contact in store then store[contact] else [];
      h := Window(conv);
      WindowIsSuffix(conv);
    }

    /** `append_message`: add the message at the end and keep the last 30. */
    method AppendMessage(contact: string, role: string, content: string)
      requires Valid()
      modifies this
      ensures Valid()
      ensures store == old(store)[contact := Window(old(Stored(contact)) + [Entry(role, content)])]
      ensures log == old(log)[contact := old(Logged(contact)) + [Entry(role, content)]]
      ensures Stored(contact) == Window(Logged(contact))
    {
      var e := Entry(role, content);
      ghost var logged := Logged(contact);
      var conv := if contact in store then store[contact] else [];
      assert conv == Window(logged);
      WindowAppend(logged, e);
      conv := conv + [e];
      store := store[contact := Window(conv)];
      log := log[contact := logged + [e]];
      assert store[contact] == Window(log[contact]);
    }

    /** `reset_history`: the contact's list becomes empty; the other contacts are untouched. */
    method ResetHistory(contact: string)
      requires Valid()
      modifies this
      ensures Valid()
      ensures store == old(store)[contact := []]
      ensures log == old(log)[contact := []]
      ensures Logged(contact) == []
    {
      store := store[contact := []];
      log := log[contact := []];
    }
  }

  /** Appending for one contact leaves what is read back for every other contact as it was. */
  method OtherContactsUntouched(m: ConversationStore, contact: string, other: string, role: string, content: string)
    returns (before: seq<Entry>, after: seq<Entry>)
    requires m.Valid() && other != contact
    modifies m
    ensures before == after
    ensures m.Stored(contact) == Window(old(m.Stored(contact)) + [Entry(role, content)])
  {
    before := m.GetHistory(other);
    m.AppendMessage(contact, role, content);
    after := m.GetHistory(other);
  }

  /** Resetting one contact leaves what is read back for every other contact as it was. */
  method ResetLeavesOthers(m: ConversationStore, contact: string, other: string)
    returns (before: seq<Entry>, after: seq<Entry>)
    requires m.Valid() && other != contact
    modifies m
    ensures before == after
    ensures m.Stored(contact) == [] && m.Valid()
  {
    before := m.GetHistory(other);
    m.ResetHistory(contact);
    after := m.GetHistory(other);
  }

  /** `reset_history` followed by `get_history` gives an empty history. */
  method ResetThenGet(m: ConversationStore, contact: string) returns (h: seq<Entry>)
    requires m.Valid()
    modifies m
    ensures h == []
  {
    m.ResetHistory(contact);
    h := m.GetHistory(contact);
  }
}

/**
 * The in-memory `ChatHistoryManager` of the store layer: a dictionary from chat id to a list of
 * `ChatMessage` records, edited in place.
 */
module HistoryStore {
  import opened Wrappers
  import opened Sequences
  import opened History

  /** The default `max_length` of `prune_history`. */
  const DefaultMaxLength: int := 124000

  /** The system entry with exactly that content: what the voice affix looks like in a history. */
  predicate IsAffix(m: Message, affix: string) {
    m.role == SystemRole && m.content == affix
  }

  predicate HasAffix(h: seq<Message>, affix: string) {
    exists k :: 0 <= k < |h| && IsAffix(h[k], affix)
  }

  /**
   * `add_system_voice_affix_if_not_exist` on the current history (missing or empty alike): `[affix]`
   * for an empty one; otherwise, unless present, the affix goes in at index 1, or at 0 when the
   * history holds a single entry.
   */
  function AffixAdded(h: seq<Message>, affix: string): (r: seq<Message>)
    ensures HasAffix(r, affix)
    ensures h == [] ==> r == [Message(SystemRole, affix)]
    ensures h != [] && HasAffix(h, affix) ==> r == h
    ensures h != [] && !HasAffix(h, affix) ==>
      r == InsertAt(h, if |h| > 1 then 1 else 0, Message(SystemRole, affix))
  {
    var m := Message(SystemRole, affix);
    if h == [] then
      assert IsAffix([m][0], affix);
      [m]
    else if HasAffix(h, affix) then h
    else
      var pos := if |h| > 1 then 1 else 0;
      var r := InsertAt(h, pos, m);
      assert IsAffix(r[pos], affix);
      r
  }

  /** Adding the affix a second time changes nothing. */
  lemma AffixAddedIdempotent(h: seq<Message>, affix: string)
    ensures AffixAdded(AffixAdded(h, affix), affix) == AffixAdded(h, affix)
  {
  }

  /** `remove_system_voice_affix_if_exist` on a non-empty history. */
  function AffixRemoved(h: seq<Message>, affix: string): seq<Message> {
    Filter(h, (m: Message) => !IsAffix(m, affix))
  }

  /** Only system entries with exactly that content go; every other entry stays, in order. */
  lemma AffixRemovedMembers(h: seq<Message>, affix: string)
    ensures !HasAffix(AffixRemoved(h, affix), affix)
    ensures forall m :: m in AffixRemoved(h, affix) <==> m in h && !IsAffix(m, affix)
    ensures !HasAffix(h, affix) ==> AffixRemoved(h, affix) == h
  {
    var keep := (m: Message) => !IsAffix(m, affix);
    var r := AffixRemoved(h, affix);
    FilterMembers(h, keep);
    forall k | 0 <= k < |r|
      ensures !IsAffix(r[k], affix)
    {
      assert r[k] in r;
    }
    if !HasAffix(h, affix) {
      FilterKeepsAll(h, keep);
    }
  }

  /** Removing after adding gives the history back without the affix. */
  lemma AffixRoundTrip(h: seq<Message>, affix: string)
    ensures AffixRemoved(AffixAdded(h, affix), affix) == AffixRemoved(h, affix)
  {
    var keep := (m: Message) => !IsAffix(m, affix);
    var x := [Message(SystemRole, affix)];
    assert Filter(x, keep) == [] by {
      assert x[..0] == [];
    }
    if h != [] && !HasAffix(h, affix) {
      var j := if |h| > 1 then 1 else 0;
      var pre, post := h[..j], h[j..];
      assert AffixAdded(h, affix) == pre + x + post;
      assert h == pre + post;
      FilterConcat(pre + x, post, keep);
      FilterConcat(pre, x, keep);
      FilterConcat(pre, post, keep);
      calc {
        AffixRemoved(AffixAdded(h, affix), affix);
        Filter(pre + x, keep) + Filter(post, keep);
        Filter(pre, keep) + Filter(post, keep);
        AffixRemoved(h, affix);
      }
    }
  }

  class ChatHistoryManager {
    var histories: map<int, seq<Message>>

    constructor()
      ensures histories == map[]
    {
      histories := map[];
    }

    /** `get_history`: an unknown chat has an empty history. */
    function GetHistory(chat: int): (h: seq<Message>)
      reads this
      ensures chat !in histories ==> h == []
      ensures chat in histories ==> h == histories[chat]
    {
      if chat in histories then histories[chat] else []
    }

    /** `calculate_history_length`: Σ len(content), 0 for an unknown chat. */
    function CalculateHistoryLength(chat: int): (n: nat)
      reads this
      ensures chat !in histories ==> n == 0
    {
      TotalLength(GetHistory(chat))
    }

    /** `_add_message`: append at the end, creating the list on first use; other chats are untouched. */
    method AddMessage(chat: int, role: string, content: string)
      modifies this
      ensures histories == old(histories)[chat := old(GetHistory(chat)) + [Message(role, content)]]
      ensures CalculateHistoryLength(chat) == old(CalculateHistoryLength(chat)) + |content|
    {
      if chat !in histories {
        histories := histories[chat := []];
      }
      TotalLengthConcat(histories[chat], [Message(role, content)]);
      assert [Message(role, content)][..0] == [];
      histories := histories[chat := histories[chat] + [Message(role, content)]];
    }

    /** `clear_history`: the chat is forgotten; an unknown chat is a no-op. */
    method ClearHistory(chat: int)
      modifies this
      ensures histories == old(histories) - {chat}
      ensures GetHistory(chat) == []
    {
      histories := histories - {chat};
    }

    /** `add_user_message`: the content is prefixed with the sender's name. */
    method AddUserMessage(chat: int, name: string, content: string)
      modifies this
      ensures histories == old(histories)[chat := old(GetHistory(chat)) + [Message("user", name + ": " + content)]]
    {
      AddMessage(chat, "user", name + ": " + content);
    }

    method AddBotMessage(chat: int, content: string)
      modifies this
      ensures histories == old(histories)[chat := old(GetHistory(chat)) + [Message("assistant", content)]]
    {
      AddMessage(chat, "assistant", content);
    }

    /**
     * `prune_history`: an absent or empty history is left alone; otherwise the loop stops once no
     * non-system entry is left (as written it spins forever there; see `PruneAsWrittenDiverges`).
     */
    method PruneHistory(chat: int, maxLength: int)
      modifies this
      ensures chat in old(histories) ==> histories == old(histories)[chat := PruneSpec(old(histories)[chat], maxLength)]
      ensures chat !in old(histories) ==> histories == old(histories)
    {
      if chat !in histories || histories[chat] == [] {
        assert chat in histories ==> PruneSpec(histories[chat], maxLength) == histories[chat];
        return;
      }
      var h := PruneLoop(histories[chat], maxLength);
      histories := histories[chat := h];
    }

    /**
     * `add_system_message`: a missing chat gets `[system]`; an empty history or one whose first entry
     * has other content gets a system entry in front; otherwise nothing changes.
     */
    method AddSystemMessage(chat: int, content: string)
      modifies this
      ensures histories == old(histories)[chat := SystemPrepended(old(GetHistory(chat)), content)]
    {
      if chat !in histories {
        assert SystemPrepended([], content) == [Message(SystemRole, content)];
        histories := histories[chat := [Message(SystemRole, content)]];
      } else if histories[chat] == [] || histories[chat][0].content != content {
        histories := histories[chat := [Message(SystemRole, content)] + histories[chat]];
      }
    }

    method AddSystemVoiceAffixIfNotExist(chat: int, affix: string)
      modifies this
      ensures histories == old(histories)[chat := AffixAdded(old(GetHistory(chat)), affix)]
    {
      var h := GetHistory(chat);
      if h == [] {
        histories := histories[chat := [Message(SystemRole, affix)]];
        return;
      }
      if !HasAffix(h, affix) {
        var pos := if |h| > 1 then 1 else 0;
        histories := histories[chat := InsertAt(h, pos, Message(SystemRole, affix))];
      }
    }

    /** An absent or empty history is left alone; otherwise the affix entries are filtered out. */
    method RemoveSystemVoiceAffixIfExist(chat: int, affix: string)
      modifies this
      ensures chat !in old(histories) || old(histories)[chat] == [] ==> histories == old(histories)
      ensures chat in old(histories) && old(histories)[chat] != [] ==>
        histories == old(histories)[chat := AffixRemoved(old(histories)[chat], affix)]
    {
      if chat !in histories || histories[chat] == [] {
        return;
      }
      histories := histories[chat := AffixRemoved(histories[chat], affix)];
    }
  }
}

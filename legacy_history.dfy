/**
 * The top-level `ChatHistoryManager`: a dictionary from chat id to a list of
 * `{"role", "content"}` entries, edited in place.
 */
module LegacyHistory {
  import opened Wrappers
  import opened Sequences
  import opened Strings
  import opened History

  /** `any(item["content"] == affix for item in h)`: the test ignores the role. */
  predicate HasContent(h: seq<Message>, content: string) {
    exists k :: 0 <= k < |h| && h[k].content == content
  }

  /** The transcribed branch of `add_or_update_voice_message`: a system entry at index 1 unless the content is present. */
  function VoiceAffixAdded(h: seq<Message>, affix: string): (r: seq<Message>)
    ensures HasContent(r, affix)
    ensures HasContent(h, affix) ==> r == h
    ensures !HasContent(h, affix) ==> r == InsertAt(h, 1, Message(SystemRole, affix))
  {
    if HasContent(h, affix) then h
    else
      var r := InsertAt(h, 1, Message(SystemRole, affix));
      assert r[if 1 < |h| then 1 else |h|].content == affix;
      r
  }

  /** The other branch: every entry with that content goes, whatever its role. */
  function VoiceAffixRemoved(h: seq<Message>, affix: string): seq<Message> {
    Filter(h, (m: Message) => m.content != affix)
  }

  /** Removal leaves no entry with that content and keeps every other entry. */
  lemma VoiceAffixRemovedMembers(h: seq<Message>, affix: string)
    ensures !HasContent(VoiceAffixRemoved(h, affix), affix)
    ensures forall m :: m in VoiceAffixRemoved(h, affix) <==> m in h && m.content != affix
  {
    var r := VoiceAffixRemoved(h, affix);
    FilterMembers(h, (m: Message) => m.content != affix);
    forall k | 0 <= k < |r|
      ensures r[k].content != affix
    {
      assert r[k] in r;
    }
  }

  /** Adding the affix and then removing it gives back a history that never held it. */
  lemma VoiceAffixRoundTrip(h: seq<Message>, affix: string)
    requires !HasContent(h, affix)
    ensures VoiceAffixRemoved(VoiceAffixAdded(h, affix), affix) == h
  {
    var keep := (m: Message) => m.content != affix;
    var j := if 1 < |h| then 1 else |h|;
    var x := [Message(SystemRole, affix)];
    var pre, post := h[..j], h[j..];
    assert VoiceAffixAdded(h, affix) == pre + x + post;
    assert h == pre + post;
    FilterConcat(pre + x, post, keep);
    FilterConcat(pre, x, keep);
    assert Filter(x, keep) == [] by {
      assert x[..0] == [];
    }
    FilterKeepsAll(pre, keep);
    FilterKeepsAll(post, keep);
    calc {
      VoiceAffixRemoved(VoiceAffixAdded(h, affix), affix);
      Filter(pre + x, keep) + Filter(post, keep);
      pre + post;
    }
  }

  class ChatHistoryManager {
    var histories: map<int, seq<Message>>

    constructor()
      ensures histories == map[]
    {
      histories := map[];
    }

    /** `get_history`: an unknown chat has an empty history. */
    function GetHistory(chat: int): (h: seq<Message>)
      reads this
      ensures chat !in histories ==> h == []
      ensures chat in histories ==> h == histories[chat]
    {
      if chat in histories then histories[chat] else []
    }

    /** `_add_message`: append at the end, creating the list on first use; other chats are untouched. */
    method AddMessage(chat: int, role: string, content: string)
      modifies this
      ensures histories == old(histories)[chat := old(GetHistory(chat)) + [Message(role, content)]]
    {
      if chat !in histories {
        histories := histories[chat := []];
      }
      histories := histories[chat := histories[chat] + [Message(role, content)]];
    }

    /** `add_user_message`: the content is prefixed with the sender's name. */
    method AddUserMessage(chat: int, name: string, content: string)
      modifies this
      ensures histories == old(histories)[chat := old(GetHistory(chat)) + [Message("user", name + ": " + content)]]
    {
      AddMessage(chat, "user", name + ": " + content);
    }

    method AddBotMessage(chat: int, content: string)
      modifies this
      ensures histories == old(histories)[chat := old(GetHistory(chat)) + [Message("assistant", content)]]
    {
      AddMessage(chat, "assistant", content);
    }

    /** `calculate_history_length`: Σ len(content), 0 for an unknown chat. */
    method CalculateHistoryLength(chat: int) returns (total: nat)
      ensures total == TotalLength(GetHistory(chat))
      ensures chat !in histories ==> total == 0
    {
      total := 0;
      if chat in histories {
        var h := histories[chat];
        var i := 0;
        while i < |h|
          invariant 0 <= i <= |h|
          invariant total == TotalLength(h[..i])
        {
          assert h[..i + 1][..i] == h[..i];
          total := total + |h[i].content|;
          i := i + 1;
        }
        assert h[..i] == h;
      }
    }

    /**
     * `prune_history` on a known chat, with the loop stopping once no non-system entry is left
     * (as written it spins forever there; see `PruneAsWrittenDiverges`).
     */
    method PruneHistory(chat: int, maxLength: int)
      modifies this
      ensures chat in old(histories) ==> histories == old(histories)[chat := PruneSpec(old(histories)[chat], maxLength)]
      ensures chat !in old(histories) ==> histories == old(histories)
    {
      if chat in histories {
        var h := PruneLoop(histories[chat], maxLength);
        histories := histories[chat := h];
      }
    }

    /**
     * `add_system_message`: a new chat gets `[system]`; otherwise a system entry is prepended unless
     * the first entry has the content. On an existing empty list `[0]` raises `IndexError`.
     */
    method AddSystemMessage(chat: int, content: string) returns (raised: bool)
      modifies this
      ensures raised <==> chat in old(histories) && old(histories)[chat] == []
      ensures raised ==> histories == old(histories)
      ensures !raised ==> histories == old(histories)[chat := SystemPrepended(old(GetHistory(chat)), content)]
    {
      if chat !in histories {
        assert SystemPrepended([], content) == [Message(SystemRole, content)];
        histories := histories[chat := [Message(SystemRole, content)]];
        return false;
      }
      if histories[chat] == [] {
        return true;
      }
      if histories[chat][0].content != content {
        histories := histories[chat := [Message(SystemRole, content)] + histories[chat]];
      }
      return false;
    }

    /**
     * `add_or_update_voice_message`: with a truthy transcription the affix is added, otherwise every
     * entry with that content is removed. An unknown chat raises `KeyError`.
     */
    method AddOrUpdateVoiceMessage(chat: int, affix: string, transcribed: Option<string>) returns (raised: bool)
      modifies this
      ensures raised <==> chat !in old(histories)
      ensures raised ==> histories == old(histories)
      ensures !raised && Truthy(transcribed) ==>
        histories == old(histories)[chat := VoiceAffixAdded(old(histories)[chat], affix)]
      ensures !raised && !Truthy(transcribed) ==>
        histories == old(histories)[chat := VoiceAffixRemoved(old(histories)[chat], affix)]
    {
      if chat !in histories {
        return true;
      }
      var h := histories[chat];
      if Truthy(transcribed) {
        if !HasContent(h, affix) {
          histories := histories[chat := InsertAt(h, 1, Message(SystemRole, affix))];
        }
      } else {
        histories := histories[chat := VoiceAffixRemoved(h, affix)];
      }
      return false;
    }
  }
}

/** The filter deciding whether the bot answers a message at all. */
module MessageRouter {
  import opened Wrappers
  import opened Strings

  /** The message attributes `should_process` reads; absent attributes are `None`. */
  datatype RoutedMessage = RoutedMessage(chatType: Option<string>, text: Option<string>, caption: Option<string>,
                                         hasReply: bool, replyFromUsername: Option<string>)

  /** `f"@{bot_username}"`, where a missing username formats as "None". */
  function MentionOf(botUsername: Option<string>): (p: string)
    ensures p != [] && p[0] == '@'
  {
    "@" + (if botUsername.Some? then botUsername.value else "None")
  }

  /** `should_process`: a private chat, a case-sensitive mention in text or caption, or a reply to the bot. */
  function ShouldProcess(m: RoutedMessage, botUsername: Option<string>): bool {
    var isPrivate := m.chatType == Some("private");
    var text := OrEmpty(m.text);
    var caption := OrEmpty(m.caption);
    var hasMention := Contains(text, MentionOf(botUsername)) || Contains(caption, MentionOf(botUsername));
    var isReplyToBot := m.hasReply && m.replyFromUsername == botUsername;
    isPrivate || hasMention || isReplyToBot
  }

  /** Private chats are always answered. */
  lemma PrivateAlwaysProcessed(m: RoutedMessage, botUsername: Option<string>)
    requires m.chatType == Some("private")
    ensures ShouldProcess(m, botUsername)
  {
  }

  /** The mention may stand anywhere in the text or the caption. */
  lemma MentionAnywhere(m: RoutedMessage, botUsername: Option<string>, before: string, after: string)
    requires m.text == Some(before + MentionOf(botUsername) + after) || m.caption == Some(before + MentionOf(botUsername) + after)
    ensures ShouldProcess(m, botUsername)
  {
    var p := MentionOf(botUsername);
    var s := before + p + after;
    assert OccursAt(s, p, |before|) by {
      assert s[|before|..|before| + |p|] == p;
    }
    ContainsAt(s, p);
  }

  /** Without '@' in text or caption a group message is answered only as a reply to the bot's own message. */
  lemma GroupNeedsMentionOrReply(m: RoutedMessage, botUsername: Option<string>)
    requires m.chatType != Some("private")
    requires forall i :: 0 <= i < |OrEmpty(m.text)| ==> OrEmpty(m.text)[i] != '@'
    requires forall i :: 0 <= i < |OrEmpty(m.caption)| ==> OrEmpty(m.caption)[i] != '@'
    ensures ShouldProcess(m, botUsername) <==> m.hasReply && m.replyFromUsername == botUsername
  {
    NoAtNoMention(OrEmpty(m.text), MentionOf(botUsername));
    NoAtNoMention(OrEmpty(m.caption), MentionOf(botUsername));
  }

  lemma NoAtNoMention(s: string, p: string)
    requires p != [] && p[0] == '@'
    requires forall i :: 0 <= i < |s| ==> s[i] != '@'
    ensures !Contains(s, p)
  {
    ContainsAt(s, p);
  }

  /** The mention test is case-sensitive: a capitalised name does not count. */
  lemma MentionIsCaseSensitive()
    ensures !ShouldProcess(RoutedMessage(Some("group"), Some("@MYBOT hi"), None, false, None), Some("mybot"))
  {
    var s := "@MYBOT hi";
    var p := MentionOf(Some("mybot"));
    forall i | 0 <= i <= |s| - |p|
      ensures !OccursAt(s, p, i)
    {
      if i == 0 {
        assert s[i..i + |p|][1] != p[1];
      } else {
        assert s[i..i + |p|][0] != p[0];
      }
    }
    ContainsAt(s, p);
  }
}

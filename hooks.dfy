/**
 * Recording who talks where: every incoming message upserts its chat and then its sender, with a
 * display name built from whatever the platform provides.
 */
module Hooks {
  import opened Wrappers
  import opened Strings

  /** The two store calls, in the order they are made. */
  datatype Upsert =
    | UpsertChat(chatId: int, title: Option<string>, lang: Option<string>)
    | UpsertParticipant(chatId: int, userId: int, username: Option<string>, displayName: string)

  /** `filter(None, [first, last])`: the names that are set and non-empty. */
  function GivenNames(first: Option<string>, last: Option<string>): (r: seq<string>)
    ensures forall k :: 0 <= k < |r| ==> r[k] != ""
  {
    (if Truthy(first) then [first.value] else []) + (if Truthy(last) then [last.value] else [])
  }

  /** `" ".join(filter(None, [first, last])) or username or str(id)` */
  function DisplayName(first: Option<string>, last: Option<string>, username: Option<string>, id: int): (d: string)
    ensures d != ""
  {
    var joined := Join(GivenNames(first, last), " ");
    if joined != "" then joined
    else if Truthy(username) then username.value
    else IntToString(id)
  }

  /** Both names joined by one space; either one alone; then the username; then the id. */
  lemma DisplayNameFallbacks(first: Option<string>, last: Option<string>, username: Option<string>, id: int)
    ensures Truthy(first) && Truthy(last) ==> DisplayName(first, last, username, id) == first.value + " " + last.value
    ensures Truthy(first) && !Truthy(last) ==> DisplayName(first, last, username, id) == first.value
    ensures !Truthy(first) && Truthy(last) ==> DisplayName(first, last, username, id) == last.value
    ensures !Truthy(first) && !Truthy(last) && Truthy(username) ==> DisplayName(first, last, username, id) == username.value
    ensures !Truthy(first) && !Truthy(last) && !Truthy(username) ==> DisplayName(first, last, username, id) == IntToString(id)
  {
    if Truthy(first) && Truthy(last) {
      var names := GivenNames(first, last);
      assert names == [first.value, last.value];
      assert names[1..] == [last.value];
      assert Join(names, " ") == first.value + " " + Join([last.value], " ");
    }
  }

  // ---------------------------------------------------------------- bot API

  datatype PtbChat = PtbChat(id: int, title: Option<string>)
  datatype PtbUser = PtbUser(id: int, firstName: Option<string>, lastName: Option<string>, username: Option<string>)

  /** `track_chat_and_user_ptb`: the chat title is taken as it is, without a fallback. */
  function TrackPtb(chat: PtbChat, user: PtbUser, lang: Option<string>): (r: seq<Upsert>)
    ensures |r| == 2 && r[0].UpsertChat? && r[1].UpsertParticipant?
    ensures r[0] == UpsertChat(chat.id, chat.title, lang)
    ensures r[1].chatId == chat.id && r[1].userId == user.id && r[1].username == user.username
    ensures r[1].displayName == DisplayName(user.firstName, user.lastName, user.username, user.id)
  {
    [UpsertChat(chat.id, chat.title, lang),
     UpsertParticipant(chat.id, user.id, user.username,
                       DisplayName(user.firstName, user.lastName, user.username, user.id))]
  }

  // ---------------------------------------------------------------- user bot

  /** A group has a title, a private dialogue the other person's first name. */
  datatype TelethonChat = TelethonChat(title: Option<string>, firstName: Option<string>)
  datatype TelethonSender = TelethonSender(id: int, firstName: Option<string>, lastName: Option<string>,
                                           username: Option<string>)

  /** `getattr(chat, "title", None) or getattr(chat, "first_name", None)` */
  function TelethonTitle(chat: Option<TelethonChat>): (t: Option<string>)
    ensures chat.Some? && Truthy(chat.value.title) ==> t == chat.value.title
    ensures chat.Some? && !Truthy(chat.value.title) ==> t == chat.value.firstName
    ensures chat.None? ==> t.None?
  {
    if chat.None? then None
    else if Truthy(chat.value.title) then chat.value.title
    else chat.value.firstName
  }

  /** `track_chat_and_user_telethon`; a missing sender has no names and the chat's id. */
  function TrackTelethon(chatId: int, chat: Option<TelethonChat>, sender: Option<TelethonSender>,
                         lang: Option<string>): (r: seq<Upsert>)
    ensures |r| == 2 && r[0].UpsertChat? && r[1].UpsertParticipant?
    ensures r[0] == UpsertChat(chatId, TelethonTitle(chat), lang)
    ensures r[1].chatId == chatId
    ensures sender.None? ==> r[1] == UpsertParticipant(chatId, chatId, None, IntToString(chatId))
    ensures sender.Some? ==> r[1] == UpsertParticipant(chatId, sender.value.id, sender.value.username,
      DisplayName(sender.value.firstName, sender.value.lastName, sender.value.username, sender.value.id))
  {
    var first := if sender.Some? then sender.value.firstName else None;
    var last := if sender.Some? then sender.value.lastName else None;
    var username := if sender.Some? then sender.value.username else None;
    var id := if sender.Some? then sender.value.id else chatId;
    [UpsertChat(chatId, TelethonTitle(chat), lang), UpsertParticipant(chatId, id, username, DisplayName(first, last, username, id))]
  }

  /** Both platforms record a person the same way from the same details. */
  lemma SameDisplayNameOnBothPlatforms(chatId: int, user: PtbUser, chat: Option<TelethonChat>, lang: Option<string>)
    ensures TrackPtb(PtbChat(chatId, None), user, lang)[1] ==
      TrackTelethon(chatId, chat, Some(TelethonSender(user.id, user.firstName, user.lastName, user.username)), lang)[1]
  {
  }
}

/** Per-user chat transcripts kept in the store as a JSON list under `chat:history:{username}`,
    rewritten whole on every append and expiring an hour after the last one. */
module ChatCache {
  import opened Common
  import opened KvStore

  const ChatHistoryTtl: int := 3600
  const HistoryKeyPrefix: string := "chat:history:"

  datatype Message = Message(content: string, isUser: bool)

  function HistoryKey(username: string): string {
    HistoryKeyPrefix + username
  }

  /** Every user has a key of their own. */
  lemma HistoryKeyInjective(u: string, v: string)
    requires HistoryKey(u) == HistoryKey(v)
    ensures u == v
  {
    PrefixCancel(HistoryKeyPrefix, u, v);
  }

  /** `get_chat_history(username)` over the stored values: an absent or empty value, or one that does not
      parse, reads as the empty history. */
  function History(data: map<string, string>, codec: Codec<seq<Message>>, username: string): (h: seq<Message>)
    ensures HistoryKey(username) !in data ==> h == []
    ensures HistoryKey(username) in data && codec.de(data[HistoryKey(username)]).None? ==> h == []
  {
    var key := HistoryKey(username);
    if key !in data || data[key] == "" then []
    else match codec.de(data[key])
      case None => []
      case Some(parsed) => parsed
  }

  /** The store contents after `append_chat_message`. */
  function Appended(data: map<string, string>, codec: Codec<seq<Message>>, username: string, m: Message): map<string, string> {
    data[HistoryKey(username) := codec.ser(History(data, codec, username) + [m])]
  }

  /** An append adds exactly one message at the end of the user's transcript. */
  lemma AppendThenRead(data: map<string, string>, codec: Codec<seq<Message>>, username: string, m: Message)
    requires JsonLike(codec)
    ensures History(Appended(data, codec, username, m), codec, username) == History(data, codec, username) + [m]
  {
    var h := History(data, codec, username) + [m];
    assert codec.de(codec.ser(h)) == Some(h) && |codec.ser(h)| > 0;
  }

  /** An append leaves every other user's transcript as it was. */
  lemma AppendLeavesOthers(data: map<string, string>, codec: Codec<seq<Message>>, u: string, v: string, m: Message)
    requires u != v
    ensures History(Appended(data, codec, u, m), codec, v) == History(data, codec, v)
  {
    if HistoryKey(u) == HistoryKey(v) {
      HistoryKeyInjective(u, v);
    }
  }

  /** Reading is `get_chat_history`. */
  function GetChatHistory(store: Store, codec: Codec<seq<Message>>, username: string): (h: seq<Message>)
    reads store
    ensures h == History(store.data, codec, username)
    ensures store.Get(HistoryKey(username)).None? ==> h == []
    // a stored value that parses is the history; an empty or unparsable one reads as []
    ensures store.Get(HistoryKey(username)).Some? ==>
              var v := store.Get(HistoryKey(username)).value;
              h == (if v != "" && codec.de(v).Some? then codec.de(v).value else [])
  {
    History(store.data, codec, username)
  }

  /** `append_chat_message(username, message, is_user)`. */
  method AppendChatMessage(store: Store, codec: Codec<seq<Message>>, username: string, message: string, isUser: bool)
    modifies store
    ensures store.data == Appended(old(store.data), codec, username, Message(message, isUser))
    ensures store.ttl == old(store.ttl)[HistoryKey(username) := ChatHistoryTtl]
  {
    var history := GetChatHistory(store, codec, username);
    history := history + [Message(message, isUser)];
    store.SetEx(HistoryKey(username), ChatHistoryTtl, codec.ser(history));
  }

  /** `clear_user_chat_history(username)`. */
  method ClearUserChatHistory(store: Store, username: string)
    modifies store
    ensures store.data == old(store.data) - {HistoryKey(username)}
    ensures store.ttl == old(store.ttl) - {HistoryKey(username)}
  {
    store.Delete([HistoryKey(username)]);
    assert (set k | k in [HistoryKey(username)]) == {HistoryKey(username)};
  }

  /** After a clear the transcript reads as empty, whatever the codec. */
  lemma ClearThenRead(data: map<string, string>, codec: Codec<seq<Message>>, username: string)
    ensures History(data - {HistoryKey(username)}, codec, username) == []
  {
  }

  /** Two appends on an empty transcript read back in the order they were made. */
  method TwoMessagesScenario(store: Store, codec: Codec<seq<Message>>, username: string)
    requires JsonLike(codec)
    modifies store
    ensures GetChatHistory(store, codec, username) == [Message("hello", true), Message("hi there", false)]
  {
    ClearUserChatHistory(store, username);
    ghost var d0 := store.data;
    ClearThenRead(old(store.data), codec, username);
    AppendChatMessage(store, codec, username, "hello", true);
    AppendThenRead(d0, codec, username, Message("hello", true));
    ghost var d1 := store.data;
    AppendChatMessage(store, codec, username, "hi there", false);
    AppendThenRead(d1, codec, username, Message("hi there", false));
  }
}

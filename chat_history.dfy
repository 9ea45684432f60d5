/**
 * Chat histories kept in the browser's key-value storage, one entry per user and topic, under
 * the key `chat_<user>_<topic>` (`general` standing for no topic).
 */
module ChatHistory {
  import opened Wrappers
  import opened Text
  import opened Chat

  const HistoryPrefix := "chat_"

  /** The topic part of a key: the topic's name, or `general` when no topic is picked. */
  function TopicKey(topic: Option<ChatTopic>): (r: string)
    ensures |r| > 0 && ('_' !in r)
  {
    match topic
    case Some(t) => TopicName(t)
    case None => "general"
  }

  /** Topic parts have six different lengths, so they tell the topics apart. */
  lemma TopicKeyInjective(s: Option<ChatTopic>, t: Option<ChatTopic>)
    requires TopicKey(s) == TopicKey(t)
    ensures s == t
  {
    assert |TopicKey(s)| == |TopicKey(t)|;
  }

  /** The part every key of one user starts with. */
  function UserPrefix(userId: string): string {
    HistoryPrefix + userId + "_"
  }

  /** `getChatHistoryKey`. */
  function HistoryKey(userId: string, topic: Option<ChatTopic>): (k: string)
    ensures StartsWith(k, UserPrefix(userId)) && k[|UserPrefix(userId)|..] == TopicKey(topic)
  {
    var k := UserPrefix(userId) + TopicKey(topic);
    assert k[..|UserPrefix(userId)|] == UserPrefix(userId);
    k
  }

  /** For one user, no topic and the five topics give six different keys. */
  lemma HistoryKeysDistinct(userId: string, s: Option<ChatTopic>, t: Option<ChatTopic>)
    requires s != t
    ensures HistoryKey(userId, s) != HistoryKey(userId, t)
  {
    if HistoryKey(userId, s) == HistoryKey(userId, t) {
      TopicKeyInjective(s, t);
    }
  }

  /**
   * A stored value: a saved history, or anything else found under a key (an empty string,
   * text that is not JSON, JSON without a message list).
   */
  datatype Stored = History(messages: seq<ChatMessage>, topic: Option<ChatTopic>, savedAt: string) | Other(text: string)

  /** `loadChatHistory` over the storage's contents: the messages saved under the key, if any. */
  function Load(items: map<string, Stored>, userId: string, topic: Option<ChatTopic>): (r: Option<seq<ChatMessage>>)
    ensures r.Some? <==> HistoryKey(userId, topic) in items && items[HistoryKey(userId, topic)].History?
    ensures r.Some? ==> r.value == items[HistoryKey(userId, topic)].messages
  {
    var key := HistoryKey(userId, topic);
    if key in items && items[key].History? then Some(items[key].messages) else None
  }

  /** The storage's contents without the keys that start with `prefix`. */
  function WithoutPrefix(items: map<string, Stored>, prefix: string): (r: map<string, Stored>)
    ensures forall k :: k in r <==> k in items && !StartsWith(k, prefix)
    ensures forall k :: k in r ==> r[k] == items[k]
  {
    map k | k in items && !StartsWith(k, prefix) :: items[k]
  }

  /** A saved history loads back, whatever the storage held before. */
  lemma LoadAfterSave(items: map<string, Stored>, userId: string, topic: Option<ChatTopic>, messages: seq<ChatMessage>, savedAt: string)
    ensures Load(items[HistoryKey(userId, topic) := History(messages, topic, savedAt)], userId, topic) == Some(messages)
  {
  }

  /** Saving one topic's history leaves the histories of the user's other topics as they were. */
  lemma SaveKeepsOtherTopics(items: map<string, Stored>, userId: string, topic: Option<ChatTopic>, other: Option<ChatTopic>, messages: seq<ChatMessage>, savedAt: string)
    requires other != topic
    ensures Load(items[HistoryKey(userId, topic) := History(messages, topic, savedAt)], userId, other) == Load(items, userId, other)
  {
    HistoryKeysDistinct(userId, topic, other);
  }

  /** No entry under the key, or an entry that is not a saved history, loads as nothing. */
  lemma LoadAbsent(items: map<string, Stored>, userId: string, topic: Option<ChatTopic>)
    requires HistoryKey(userId, topic) !in items || items[HistoryKey(userId, topic)].Other?
    ensures Load(items, userId, topic) == None
  {
  }

  /** After `clearAllChatHistory`, nothing loads for the user, whatever the topic. */
  lemma ClearAllForgetsUser(items: map<string, Stored>, userId: string, topic: Option<ChatTopic>)
    ensures Load(WithoutPrefix(items, UserPrefix(userId)), userId, topic) == None
  {
  }

  /** An id, an underscore and an underscore-free tail start with `b` and an underscore only when the id is `b` or starts with them. */
  lemma UnderscorePrefix(a: string, b: string, t: string)
    requires '_' !in t && StartsWith(a + "_" + t, b + "_")
    ensures a == b || StartsWith(a, b + "_")
  {
    var x := a + "_" + t;
    assert x[|b|] == '_';
    assert forall i :: |a| < i < |x| ==> x[i] == t[i - |a| - 1];
    assert x[..|a|] == a && x[..|b|] == b;
    if |b| < |a| {
      assert a[..|b| + 1] == x[..|b| + 1];
    }
  }

  /** The key of `other` starts with the prefix of `userId` exactly when `other` is `userId` or starts with it and an underscore. */
  lemma KeyUnderPrefix(userId: string, other: string, topic: Option<ChatTopic>)
    ensures StartsWith(HistoryKey(other, topic), UserPrefix(userId)) <==> other == userId || StartsWith(other, userId + "_")
  {
    var t := TopicKey(topic);
    assert HistoryKey(other, topic) == HistoryPrefix + (other + "_" + t);
    assert UserPrefix(userId) == HistoryPrefix + (userId + "_");
    PrefixedUnderPrefix(userId, other, t);
  }

  /** The same, for any topic part without an underscore. */
  lemma PrefixedUnderPrefix(userId: string, other: string, t: string)
    requires '_' !in t
    ensures StartsWith(HistoryPrefix + (other + "_" + t), HistoryPrefix + (userId + "_")) <==> other == userId || StartsWith(other, userId + "_")
  {
    var x := other + "_" + t;
    var k, p := HistoryPrefix + x, HistoryPrefix + (userId + "_");
    var n := |HistoryPrefix|;
    if StartsWith(k, p) {
      assert x[..|userId| + 1] == k[n..|p|];
      UnderscorePrefix(other, userId, t);
    }
    if StartsWith(other, userId + "_") {
      assert x[..|userId| + 1] == other[..|userId| + 1];
      assert k[..|p|] == HistoryPrefix + x[..|userId| + 1];
    }
  }

  /**
   * `clearAllChatHistory` for `userId` clears another user's history exactly when that user's id
   * starts with `userId` and an underscore: the prefix match cannot tell the two apart.
   */
  lemma ClearAllOtherUsers(items: map<string, Stored>, userId: string, other: string, topic: Option<ChatTopic>)
    requires other != userId
    ensures StartsWith(other, userId + "_") ==> Load(WithoutPrefix(items, UserPrefix(userId)), other, topic) == None
    ensures !StartsWith(other, userId + "_") ==> Load(WithoutPrefix(items, UserPrefix(userId)), other, topic) == Load(items, other, topic)
  {
    KeyUnderPrefix(userId, other, topic);
  }

  /** The browser's key-value storage, reduced to its contents. */
  class LocalStorage {
    var items: map<string, Stored>

    constructor(contents: map<string, Stored>)
      ensures items == contents
    {
      items := contents;
    }
  }

  /** `saveChatHistory`: the history is stored under the user's key for the topic, replacing what was there. */
  method SaveChatHistory(storage: LocalStorage, userId: string, topic: Option<ChatTopic>, messages: seq<ChatMessage>, savedAt: string)
    modifies storage
    ensures storage.items == old(storage.items)[HistoryKey(userId, topic) := History(messages, topic, savedAt)]
    ensures Load(storage.items, userId, topic) == Some(messages)
  {
    storage.items := storage.items[HistoryKey(userId, topic) := History(messages, topic, savedAt)];
    LoadAfterSave(old(storage.items), userId, topic, messages, savedAt);
  }

  /** `loadChatHistory`: the messages stored under the user's key for the topic, if a history is there. */
  function LoadChatHistory(storage: LocalStorage, userId: string, topic: Option<ChatTopic>): (r: Option<seq<ChatMessage>>)
    reads storage
    ensures r.Some? <==> HistoryKey(userId, topic) in storage.items && storage.items[HistoryKey(userId, topic)].History?
    ensures r.Some? ==> r.value == storage.items[HistoryKey(userId, topic)].messages
  {
    Load(storage.items, userId, topic)
  }

  /** `clearChatHistory`: exactly the user's key for the topic is removed. */
  method ClearChatHistory(storage: LocalStorage, userId: string, topic: Option<ChatTopic>)
    modifies storage
    ensures storage.items == old(storage.items) - {HistoryKey(userId, topic)}
    ensures Load(storage.items, userId, topic) == None
    ensures forall k :: k != HistoryKey(userId, topic) ==> (k in storage.items <==> k in old(storage.items))
  {
    storage.items := storage.items - {HistoryKey(userId, topic)};
  }

  /**
   * `clearAllChatHistory`: the keys present when it starts are visited one by one, and each that
   * starts with the user's prefix is removed.
   */
  method ClearAllChatHistory(storage: LocalStorage, userId: string)
    modifies storage
    ensures storage.items == WithoutPrefix(old(storage.items), UserPrefix(userId))
  {
    var keys := storage.items.Keys;
    var prefix := UserPrefix(userId);
    while keys != {}
      invariant keys <= old(storage.items).Keys
      invariant forall k :: k in storage.items <==> k in old(storage.items) && (k in keys || !StartsWith(k, prefix))
      invariant forall k :: k in storage.items ==> storage.items[k] == old(storage.items)[k]
      decreases keys
    {
      var key :| key in keys;
      if StartsWith(key, prefix) {
        storage.items := storage.items - {key};
      }
      keys := keys - {key};
    }
  }
}

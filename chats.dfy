/**
 * The chat store of `src/hooks/useChats.tsx`: the converters between thread
 * posts and their database form, the UUID shape check, and the local chat
 * list kept by `saveChat`, `updateMessage` and `deleteChat`.
 *
 * The database is outside the model: whether its calls succeed is an input,
 * and so are the ids `uuidv4` would generate.
 */
module Chats {
  import opened Wrappers
  import opened JsText

  datatype ThreadPost = ThreadPost(
    id: string, content: string, isEditing: bool, index: int, total: int, characterCount: int,
    hashtags: Option<seq<string>>, mentions: Option<seq<string>>)

  /** A post as stored in a message's `posts` JSON column: every field may be missing. */
  datatype DbPost = DbPost(
    id: Option<string>, content: Option<string>, index: Option<int>, total: Option<int>,
    characterCount: Option<int>, hashtags: Option<seq<string>>, mentions: Option<seq<string>>)

  /** The `posts` column as read: missing (or another falsy value), some non-array value, or an array. */
  datatype DbPostsValue = Falsy | NotArray | PostArray(items: seq<DbPost>)

  datatype MessageType = User | Ai

  datatype Message = Message(
    id: string, kind: MessageType, content: string, timestamp: int, posts: Option<seq<ThreadPost>>,
    platform: Option<string>, tone: Option<seq<string>>, useEmojis: Option<bool>, isEditing: Option<bool>)

  datatype Chat = Chat(
    id: string, title: string, createdAt: int, preview: string, messages: seq<Message>,
    platform: string, tone: seq<string>, useEmojis: bool)

  /** A `Partial<Message>`: the fields present override the message's own. */
  datatype MessageUpdate = MessageUpdate(
    id: Option<string>, kind: Option<MessageType>, content: Option<string>, timestamp: Option<int>,
    posts: Option<seq<ThreadPost>>, platform: Option<string>, tone: Option<seq<string>>,
    useEmojis: Option<bool>, isEditing: Option<bool>)

  // ---------------------------------------------------------------------------------------------
  // Post converters

  /** One stored post read back; `freshId` stands for the `uuidv4()` used when the id is missing. */
  function FromDbPost(p: DbPost, freshId: string): ThreadPost
  {
    ThreadPost(OrString(p.id, freshId), OrString(p.content, ""), false, OrInt(p.index, 1), OrInt(p.total, 1),
               CountOrLength(p.characterCount, p.content), Some(p.hashtags.GetOr([])), Some(p.mentions.GetOr([])))
  }

  /** `convertDbPostsToThreadPosts`; the i-th post uses `freshIds(i)` when it has no id. */
  function ConvertDbPostsToThreadPosts(db: DbPostsValue, freshIds: nat -> string): (r: Option<seq<ThreadPost>>)
    ensures r.None? <==> !db.PostArray?
    ensures db.PostArray? ==> |r.value| == |db.items|
    ensures db.PostArray? ==> forall i :: 0 <= i < |r.value| ==> !r.value[i].isEditing
  {
    match db
    case PostArray(items) =>
      var posts := seq(|items|, i requires 0 <= i < |items| => FromDbPost(items[i], freshIds(i)));
      assert forall i :: 0 <= i < |posts| ==> posts[i] == FromDbPost(items[i], freshIds(i));
      Some(posts)
    case _ => None
  }

  /** Missing or falsy fields read back as their defaults. */
  lemma FromDbDefaults(p: DbPost, freshId: string)
    ensures var t := FromDbPost(p, freshId);
            && (p.content.None? || p.content == Some("") ==> t.content == "")
            && (p.index.None? || p.index == Some(0) ==> t.index == 1)
            && (p.total.None? || p.total == Some(0) ==> t.total == 1)
            && (p.characterCount.None? || p.characterCount == Some(0) ==> t.characterCount == |t.content|)
            && (p.hashtags.None? ==> t.hashtags == Some([]))
            && (p.mentions.None? ==> t.mentions == Some([]))
            && (p.id.None? || p.id == Some("") ==> t.id == freshId)
  {
  }

  function ToDbPost(p: ThreadPost): DbPost
  {
    DbPost(Some(p.id), Some(p.content), Some(p.index), Some(p.total), Some(p.characterCount),
           Some(p.hashtags.GetOr([])), Some(p.mentions.GetOr([])))
  }

  /** `convertThreadPostsToDb`. */
  function ConvertThreadPostsToDb(posts: seq<ThreadPost>): (r: seq<DbPost>)
    ensures |r| == |posts|
  {
    seq(|posts|, i requires 0 <= i < |posts| => ToDbPost(posts[i]))
  }

  /** The stored form keeps id, content, index, total and count, and always holds both tag lists. */
  lemma ToDbKeepsFields(posts: seq<ThreadPost>, i: int)
    requires 0 <= i < |posts|
    ensures var d, p := ConvertThreadPostsToDb(posts)[i], posts[i];
            && d.id == Some(p.id) && d.content == Some(p.content) && d.index == Some(p.index)
            && d.total == Some(p.total) && d.characterCount == Some(p.characterCount)
            && d.hashtags == Some(p.hashtags.GetOr([])) && d.mentions == Some(p.mentions.GetOr([]))
  {
  }

  /** The posts that survive a round trip through the database unchanged (but for `isEditing`). */
  predicate RoundTrips(p: ThreadPost) {
    && p.id != "" && p.index != 0 && p.total != 0
    && (p.characterCount != 0 || p.content == "")
    && p.hashtags.Some? && p.mentions.Some?
  }

  function NotEditing(posts: seq<ThreadPost>): seq<ThreadPost>
  {
    seq(|posts|, i requires 0 <= i < |posts| => posts[i].(isEditing := false))
  }

  /** One post: reading back what was stored gives it back exactly when it `RoundTrips`. */
  lemma PostRoundTrip(p: ThreadPost, freshId: string)
    requires freshId != ""
    ensures FromDbPost(ToDbPost(p), freshId) == p.(isEditing := false) <==> RoundTrips(p)
  {
    var t := FromDbPost(ToDbPost(p), freshId);
    if t == p.(isEditing := false) {
      assert t.id == p.id && t.index == p.index && t.total == p.total;
      assert t.characterCount == p.characterCount && t.content == p.content;
      assert t.hashtags == p.hashtags && t.mentions == p.mentions;
    }
  }

  /** A list of posts survives a round trip exactly when every post in it does. */
  lemma ConvertersRoundTrip(posts: seq<ThreadPost>, freshIds: nat -> string)
    requires forall i: nat :: freshIds(i) != ""
    ensures ConvertDbPostsToThreadPosts(PostArray(ConvertThreadPostsToDb(posts)), freshIds) == Some(NotEditing(posts))
            <==> forall i :: 0 <= i < |posts| ==> RoundTrips(posts[i])
  {
    var back := ConvertDbPostsToThreadPosts(PostArray(ConvertThreadPostsToDb(posts)), freshIds).value;
    forall i | 0 <= i < |posts|
      ensures back[i] == FromDbPost(ToDbPost(posts[i]), freshIds(i))
      ensures back[i] == NotEditing(posts)[i] <==> RoundTrips(posts[i])
    {
      PostRoundTrip(posts[i], freshIds(i));
    }
    if back == NotEditing(posts) {
      forall i | 0 <= i < |posts| ensures RoundTrips(posts[i]) {
        assert back[i] == NotEditing(posts)[i];
      }
    }
  }

  // ---------------------------------------------------------------------------------------------
  // UUID shape

  predicate IsHexDigit(c: char) { ('0' <= c <= '9') || ('a' <= c <= 'f') || ('A' <= c <= 'F') }

  function HexValue(c: char): nat
  {
    if '0' <= c <= '9' then (c as int - '0' as int) as nat
    else if 'a' <= c <= 'f' then (c as int - 'a' as int + 10) as nat
    else if 'A' <= c <= 'F' then (c as int - 'A' as int + 10) as nat
    else 0
  }

  /** The 8-4-4-4-12 layout of hexadecimal digits and hyphens. */
  predicate HasUuidLayout(s: string) {
    && |s| == 36
    && forall i :: 0 <= i < 36 ==> if i == 8 || i == 13 || i == 18 || i == 23 then s[i] == '-' else IsHexDigit(s[i])
  }

  /**
   * `/^[0-9a-f]{8}-[0-9a-f]{4}-[1-5][0-9a-f]{3}-[89ab][0-9a-f]{3}-[0-9a-f]{12}$/i`:
   * the layout, a version digit 1 to 5 and a variant digit 8, 9, a or b (either case).
   */
  predicate IsUuid(s: string) {
    && HasUuidLayout(s)
    && '1' <= s[14] <= '5'
    && s[19] in {'8', '9', 'a', 'b', 'A', 'B'}
  }

  /**
   * A string with the layout matches exactly when its version field (section 4.1.3 of RFC 4122)
   * is 1 to 5 and its variant bits (section 4.1.1) are `10`: the high two bits of the digit at 19.
   */
  lemma UuidFields(s: string)
    requires HasUuidLayout(s)
    ensures IsUuid(s) <==> 1 <= HexValue(s[14]) <= 5 && HexValue(s[19]) / 4 == 2
  {
    assert IsHexDigit(s[14]) && IsHexDigit(s[19]);
  }

  /** The id a save persists: the given one when it is a UUID, otherwise a fresh one. */
  function EnsureUuid(id: string, freshId: string): (r: string)
    ensures r == id || r == freshId
    ensures IsUuid(id) ==> r == id
    ensures !IsUuid(id) ==> r == freshId
    ensures IsUuid(r) <==> IsUuid(id) || IsUuid(freshId)
  {
    if id == "" || !IsUuid(id) then freshId else id
  }

  /** Persisting an id that was already persisted with a UUID keeps it, whatever id is fresh. */
  lemma EnsureUuidIdempotent(id: string, freshId: string, laterId: string)
    requires IsUuid(freshId)
    ensures EnsureUuid(EnsureUuid(id, freshId), laterId) == EnsureUuid(id, freshId)
  {
  }

  // ---------------------------------------------------------------------------------------------
  // Local chat list updates

  /** The chats with the given id, in list order. */
  predicate HasChat(chats: seq<Chat>, id: string) { exists i :: 0 <= i < |chats| && chats[i].id == id }

  /** `chats.find(c => c.id === id)`. */
  function FindChat(chats: seq<Chat>, id: string): (r: Option<Chat>)
    ensures r.None? <==> !HasChat(chats, id)
    ensures r.Some? ==> r.value.id == id && r.value in chats
    ensures r.Some? ==> exists k :: 0 <= k < |chats| && chats[k] == r.value && forall j :: 0 <= j < k ==> chats[j].id != id
  {
    if chats == [] then None
    else if chats[0].id == id then Some(chats[0])
    else
      var r := FindChat(chats[1..], id);
      assert forall c :: c in chats[1..] ==> c in chats;
      assert HasChat(chats[1..], id) ==> HasChat(chats, id);
      assert HasChat(chats, id) ==> HasChat(chats[1..], id) by {
        if HasChat(chats, id) {
          var i :| 0 <= i < |chats| && chats[i].id == id;
          assert chats[1..][i - 1].id == id;
        }
      }
      assert r.Some? ==> exists k :: 0 <= k < |chats| && chats[k] == r.value && forall j :: 0 <= j < k ==> chats[j].id != id by {
        if r.Some? {
          var k :| 0 <= k < |chats[1..]| && chats[1..][k] == r.value && forall j :: 0 <= j < k ==> chats[1..][j].id != id;
          assert chats[k + 1] == r.value;
          forall j | 0 <= j < k + 1
            ensures chats[j].id != id
          {
            if j > 0 {
              assert chats[j] == chats[1..][j - 1];
            }
          }
        }
      }
      r
  }

  /** `chats.map(c => c.id === id ? chat : c)`. */
  function ReplaceChats(chats: seq<Chat>, id: string, chat: Chat): (r: seq<Chat>)
    ensures |r| == |chats|
    ensures forall i :: 0 <= i < |chats| ==> r[i] == if chats[i].id == id then chat else chats[i]
  {
    if chats == [] then [] else [if chats[0].id == id then chat else chats[0]] + ReplaceChats(chats[1..], id, chat)
  }

  /** The guest `saveChat`: replace the chats with this id if there are any, else put it first. */
  function UpsertChat(chats: seq<Chat>, chat: Chat): seq<Chat>
  {
    if FindChat(chats, chat.id).Some? then ReplaceChats(chats, chat.id, chat) else [chat] + chats
  }

  /** The list grows by at most one, ends up holding the chat, and keeps every chat with another id in place. */
  lemma UpsertProperties(chats: seq<Chat>, chat: Chat)
    ensures var r := UpsertChat(chats, chat);
            && |chats| <= |r| <= |chats| + 1
            && FindChat(r, chat.id) == Some(chat)
            && (HasChat(chats, chat.id) ==> |r| == |chats| && forall i :: 0 <= i < |chats| && chats[i].id != chat.id ==> r[i] == chats[i])
            && (!HasChat(chats, chat.id) ==> r == [chat] + chats)
  {
    var r := UpsertChat(chats, chat);
    FindReplaced(chats, chat);
  }

  lemma {:induction false} FindReplaced(chats: seq<Chat>, chat: Chat)
    ensures FindChat(UpsertChat(chats, chat), chat.id) == Some(chat)
  {
    if !HasChat(chats, chat.id) {
      assert UpsertChat(chats, chat)[0] == chat;
    } else {
      FindReplacedIn(chats, chat);
    }
  }

  lemma {:induction false} FindReplacedIn(chats: seq<Chat>, chat: Chat)
    requires HasChat(chats, chat.id)
    ensures FindChat(ReplaceChats(chats, chat.id, chat), chat.id) == Some(chat)
  {
    var r := ReplaceChats(chats, chat.id, chat);
    if chats[0].id != chat.id {
      var i :| 0 <= i < |chats| && chats[i].id == chat.id;
      assert chats[1..][i - 1].id == chat.id;
      FindReplacedIn(chats[1..], chat);
      assert r[1..] == ReplaceChats(chats[1..], chat.id, chat);
    }
  }

  /** Saving the same chat twice is saving it once. */
  lemma UpsertIdempotent(chats: seq<Chat>, chat: Chat)
    ensures UpsertChat(UpsertChat(chats, chat), chat) == UpsertChat(chats, chat)
  {
    FindReplaced(chats, chat);
    var once := UpsertChat(chats, chat);
    var twice := UpsertChat(once, chat);
    assert |twice| == |once|;
    forall i | 0 <= i < |once| ensures twice[i] == once[i] {
      if !HasChat(chats, chat.id) && i > 0 {
        assert once[i] == chats[i - 1];
      }
    }
  }

  /** `chats.filter(c => c.id !== id)`. */
  function RemoveChats(chats: seq<Chat>, id: string): (r: seq<Chat>)
    ensures !HasChat(r, id)
    ensures |r| <= |chats|
    ensures forall c :: c in r ==> c in chats
  {
    if chats == [] then []
    else (if chats[0].id == id then [] else [chats[0]]) + RemoveChats(chats[1..], id)
  }

  /** Removing keeps every chat with another id. */
  lemma {:induction false} RemoveKeepsOthers(chats: seq<Chat>, id: string, c: Chat)
    requires c in chats && c.id != id
    ensures c in RemoveChats(chats, id)
  {
    if chats[0] != c {
      RemoveKeepsOthers(chats[1..], id, c);
    }
  }

  /** The filter works chat by chat: removing from a concatenation removes from each part, in order. */
  lemma {:induction false} RemoveAppend(a: seq<Chat>, b: seq<Chat>, id: string)
    ensures RemoveChats(a + b, id) == RemoveChats(a, id) + RemoveChats(b, id)
  {
    if a == [] {
      assert a + b == b;
    } else {
      assert (a + b)[0] == a[0] && (a + b)[1..] == a[1..] + b;
      RemoveAppend(a[1..], b, id);
    }
  }

  /** A single chat is dropped exactly when it has the id. */
  lemma RemoveSingle(c: Chat, id: string)
    ensures RemoveChats([c], id) == if c.id == id then [] else [c]
  {
    assert [c][1..] == [];
  }

  /** A list without the id is left exactly as it is. */
  lemma {:induction false} RemoveNothing(chats: seq<Chat>, id: string)
    requires !HasChat(chats, id)
    ensures RemoveChats(chats, id) == chats
  {
    if chats != [] {
      RemoveNothing(chats[1..], id);
      assert chats == [chats[0]] + chats[1..];
    }
  }

  /** Deleting a chat just saved is deleting it from the list before the save. */
  lemma {:induction false} RemoveAfterUpsert(chats: seq<Chat>, chat: Chat)
    ensures RemoveChats(UpsertChat(chats, chat), chat.id) == RemoveChats(chats, chat.id)
  {
    if HasChat(chats, chat.id) {
      RemoveAfterReplace(chats, chat);
    } else {
      assert ([chat] + chats)[1..] == chats;
    }
  }

  lemma {:induction false} RemoveAfterReplace(chats: seq<Chat>, chat: Chat)
    ensures RemoveChats(ReplaceChats(chats, chat.id, chat), chat.id) == RemoveChats(chats, chat.id)
  {
    if chats != [] {
      var r := ReplaceChats(chats, chat.id, chat);
      assert r[1..] == ReplaceChats(chats[1..], chat.id, chat);
      RemoveAfterReplace(chats[1..], chat);
    }
  }

  /** `{...msg, ...updates}`. */
  function MergeMessage(m: Message, u: MessageUpdate): Message
  {
    Message(u.id.GetOr(m.id), u.kind.GetOr(m.kind), u.content.GetOr(m.content), u.timestamp.GetOr(m.timestamp),
            if u.posts.Some? then u.posts else m.posts,
            if u.platform.Some? then u.platform else m.platform,
            if u.tone.Some? then u.tone else m.tone,
            if u.useEmojis.Some? then u.useEmojis else m.useEmojis,
            if u.isEditing.Some? then u.isEditing else m.isEditing)
  }

  /** Merging the same update twice is merging it once. */
  lemma MergeIdempotent(m: Message, u: MessageUpdate)
    ensures MergeMessage(MergeMessage(m, u), u) == MergeMessage(m, u)
    ensures u.id.None? ==> MergeMessage(m, u).id == m.id
  {
  }

  /** `messages.map(msg => msg.id === messageId ? {...msg, ...updates} : msg)`. */
  function UpdateMessages(messages: seq<Message>, messageId: string, u: MessageUpdate): (r: seq<Message>)
    ensures |r| == |messages|
  {
    seq(|messages|, i requires 0 <= i < |messages| =>
      if messages[i].id == messageId then MergeMessage(messages[i], u) else messages[i])
  }

  /** Whether `updateMessage` writes to the database first. */
  predicate UpdateWritesDb(userId: Option<string>, u: MessageUpdate) {
    userId.Some? && userId.value != "" && (u.content.Some? || u.posts.Some?)
  }

  /** The local list after `updateMessage`, when the database write (if any) succeeded. */
  function UpdateMessageIn(chats: seq<Chat>, chatId: string, messageId: string, u: MessageUpdate): seq<Chat>
  {
    match FindChat(chats, chatId)
    case None => chats
    case Some(chat) => ReplaceChats(chats, chatId, chat.(messages := UpdateMessages(chat.messages, messageId, u)))
  }

  /**
   * An unknown chat id changes nothing; otherwise only chats with that id change, and in them
   * only the messages with that id, each merged with the update.
   */
  lemma UpdateMessageProperties(chats: seq<Chat>, chatId: string, messageId: string, u: MessageUpdate)
    ensures var r := UpdateMessageIn(chats, chatId, messageId, u);
            && |r| == |chats|
            && (!HasChat(chats, chatId) ==> r == chats)
            && (forall i :: 0 <= i < |chats| && chats[i].id != chatId ==> r[i] == chats[i])
            && (HasChat(chats, chatId) ==>
                  var first := FindChat(chats, chatId).value;
                  forall i :: 0 <= i < |chats| && chats[i].id == chatId ==>
                    && r[i] == first.(messages := UpdateMessages(first.messages, messageId, u))
                    && r[i].id == chatId
                    && |r[i].messages| == |first.messages|
                    && forall j :: 0 <= j < |first.messages| ==>
                         r[i].messages[j] == if first.messages[j].id == messageId then MergeMessage(first.messages[j], u)
                                             else first.messages[j])
  {
  }

  // ---------------------------------------------------------------------------------------------
  // The store

  /** The chat with the ids a signed-in save persists: the chat's and each message's made UUIDs. */
  function PersistedChat(chat: Chat, freshChatId: string, freshMessageIds: nat -> string): Chat
  {
    chat.(id := EnsureUuid(chat.id, freshChatId),
          messages := seq(|chat.messages|, i requires 0 <= i < |chat.messages| =>
                        chat.messages[i].(id := EnsureUuid(chat.messages[i].id, freshMessageIds(i)))))
  }

  /** With UUIDs as fresh ids, every id a signed-in save persists is a UUID, and UUID ids are kept. */
  lemma PersistedIdsAreUuids(chat: Chat, freshChatId: string, freshMessageIds: nat -> string)
    requires IsUuid(freshChatId) && forall i: nat :: IsUuid(freshMessageIds(i))
    ensures var p := PersistedChat(chat, freshChatId, freshMessageIds);
            && IsUuid(p.id)
            && |p.messages| == |chat.messages|
            && (forall i :: 0 <= i < |p.messages| ==> IsUuid(p.messages[i].id))
            && (IsUuid(chat.id) ==> p.id == chat.id)
            && (forall i :: 0 <= i < |p.messages| && IsUuid(chat.messages[i].id) ==> p.messages[i].id == chat.messages[i].id)
  {
  }

  class ChatStore {
    /** The signed-in user, if any; the hook's argument. */
    const userId: Option<string>
    /** The hook's `chats` state. */
    var chats: seq<Chat>

    constructor (userId: Option<string>)
      ensures this.userId == userId && chats == []
    {
      this.userId := userId;
      chats := [];
    }

    predicate SignedIn() { userId.Some? && userId.value != "" }

    /**
     * `saveChat`. A guest's chat goes straight into the list. A signed-in user's chat first gets
     * UUID ids (a loop over the messages), is written to the database, and enters the list only
     * when every write succeeded.
     */
    method SaveChat(chat: Chat, freshChatId: string, freshMessageIds: nat -> string, dbSucceeds: bool)
      modifies this
      ensures !SignedIn() ==> chats == UpsertChat(old(chats), chat)
      ensures SignedIn() && dbSucceeds ==> chats == UpsertChat(old(chats), PersistedChat(chat, freshChatId, freshMessageIds))
      ensures SignedIn() && !dbSucceeds ==> chats == old(chats)
    {
      if userId.None? || userId.value == "" {
        chats := UpsertChat(chats, chat);
        return;
      }
      var chatId := chat.id;
      if chatId == "" || !IsUuid(chatId) {
        chatId := freshChatId;
      }
      var messages: seq<Message> := [];
      var i := 0;
      while i < |chat.messages|
        invariant 0 <= i <= |chat.messages|
        invariant |messages| == i
        invariant forall j :: 0 <= j < i ==> messages[j] == chat.messages[j].(id := EnsureUuid(chat.messages[j].id, freshMessageIds(j)))
      {
        var message := chat.messages[i];
        var messageId := message.id;
        if messageId == "" || !IsUuid(messageId) {
          messageId := freshMessageIds(i);
        }
        messages := messages + [message.(id := messageId)];
        i := i + 1;
      }
      assert chat.(id := chatId, messages := messages) == PersistedChat(chat, freshChatId, freshMessageIds);
      if dbSucceeds {
        chats := UpsertChat(chats, chat.(id := chatId, messages := messages));
      }
    }

    /** `updateMessage`: a failed database write leaves the list as it was. */
    method UpdateMessage(chatId: string, messageId: string, updates: MessageUpdate, dbSucceeds: bool)
      modifies this
      ensures chats == if UpdateWritesDb(userId, updates) && !dbSucceeds && HasChat(old(chats), chatId) then old(chats)
                       else UpdateMessageIn(old(chats), chatId, messageId, updates)
    {
      var found := FindChat(chats, chatId);
      if found.None? {
        return;
      }
      var chat := found.value;
      var updatedChat := chat.(messages := UpdateMessages(chat.messages, messageId, updates));
      if UpdateWritesDb(userId, updates) && !dbSucceeds {
        return;
      }
      chats := ReplaceChats(chats, chatId, updatedChat);
    }

    /** `deleteChat`: a signed-in user's failed database delete leaves the list as it was. */
    method DeleteChat(chatId: string, dbSucceeds: bool)
      modifies this
      ensures chats == if SignedIn() && !dbSucceeds then old(chats) else RemoveChats(old(chats), chatId)
    {
      if SignedIn() && !dbSucceeds {
        return;
      }
      chats := RemoveChats(chats, chatId);
    }
  }
}

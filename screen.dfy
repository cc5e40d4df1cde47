/**
 * The main screen of `src/components/ThreadCutter.tsx`, as far as it decides things: the
 * per-platform character limit, the chat title and preview, the tone toggle, the message
 * quota (the number left and the gate in front of a generation), the numbering of generated
 * posts, the post edit, and the `splitIntoThreads` sequence that ties the message ledger,
 * the formatter and the chat store together.
 *
 * The clock, whether remote calls succeed and the ids `uuidv4` would generate are inputs.
 */
module Screen {
  import opened Wrappers
  import opened JsText
  import opened Ledger
  import opened Chats
  import Formatter

  // ---------------------------------------------------------------------------------------------
  // Character limits

  /** `getCharacterLimit`: the limit shown under the composer for each platform. */
  function CharacterLimit(platform: string): int
  {
    if platform == "twitter" then 280
    else if platform == "linkedin" then 3000
    else if platform == "threads" then 500
    else if platform == "instagram" then 2200
    else if platform == "facebook" then 63206
    else if platform == "tiktok" then 300
    else 280
  }

  /** The screen's table agrees with the formatter's for every platform name, known or not. */
  lemma CharacterLimitAgrees(platform: string)
    ensures CharacterLimit(platform) == Formatter.PlatformInfo(platform).charLimit
    ensures CharacterLimit(platform) >= 280
  {
  }

  // ---------------------------------------------------------------------------------------------
  // Chat title and preview

  /** The first six space-separated words of the input, joined again by single spaces. */
  function TitleWords(input: string): string
  {
    var words := SplitOn(input, ' ');
    Join(words[..Min(6, |words|)], " ")
  }

  /** `generateChatTitle`. */
  function ChatTitle(input: string): string
  {
    var words := TitleWords(input);
    if |words| > 30 then Substring(words, 0, 30) + "..." else words
  }

  /**
   * The title is a prefix of the input (its first six words), cut to 30 characters with "..."
   * appended exactly when that prefix is longer than 30; so it is never longer than 33.
   */
  lemma ChatTitleShape(input: string)
    ensures var w, t := TitleWords(input), ChatTitle(input);
            && |w| <= |input| && w == input[..|w|]
            && |t| <= 33
            && (|w| > 30 ==> t == input[..30] + "...")
            && (|w| <= 30 ==> t == w)
            && (|w| > 30 <==> |t| == 33)
            && (|SplitOn(input, ' ')| <= 6 ==> w == input)
            && SplitOn(w, ' ') == SplitOn(input, ' ')[..Min(6, |SplitOn(input, ' ')|)]
  {
    var words := SplitOn(input, ' ');
    var k := Min(6, |words|);
    assert " " == [' '];
    SplitOnJoin(input, ' ');
    JoinPrefix(words, k, " ");
    JoinSplitOn(words[..k], ' ');
    if k == |words| {
      assert words[..k] == words;
    }
  }

  /** The chat preview: the first 50 characters, and "..." when there were more. */
  function Preview(input: string): string
  {
    Substring(input, 0, 50) + (if |input| > 50 then "..." else "")
  }

  lemma PreviewShape(input: string)
    ensures |input| <= 50 ==> Preview(input) == input
    ensures |input| > 50 ==> Preview(input) == input[..50] + "..."
    ensures |Preview(input)| <= 53
  {
  }

  // ---------------------------------------------------------------------------------------------
  // Tone selection

  /** `tones.filter(t => t !== tone)`. */
  function Without(tones: seq<string>, tone: string): (r: seq<string>)
    ensures forall t :: t in r <==> t in tones && t != tone
    ensures |r| <= |tones|
  {
    if tones == [] then []
    else (if tones[0] == tone then [] else [tones[0]]) + Without(tones[1..], tone)
  }

  /** Filtering a concatenation filters each part: the kept tones stay in their order. */
  lemma {:induction false} WithoutAppend(a: seq<string>, b: seq<string>, tone: string)
    ensures Without(a + b, tone) == Without(a, tone) + Without(b, tone)
  {
    if a == [] {
      assert a + b == b;
    } else {
      assert (a + b)[1..] == a[1..] + b;
      WithoutAppend(a[1..], b, tone);
    }
  }

  /** Filtering out a tone that is not there changes nothing. */
  lemma {:induction false} WithoutAbsent(tones: seq<string>, tone: string)
    requires tone !in tones
    ensures Without(tones, tone) == tones
  {
    if tones != [] {
      assert tones[0] in tones;
      assert forall t :: t in tones[1..] ==> t in tones;
      WithoutAbsent(tones[1..], tone);
    }
  }

  /** The new selection after `handleToneToggle(tone)`. */
  function ToggleTone(selected: seq<string>, tone: string, isPremium: bool): seq<string>
  {
    if !isPremium then
      if tone in selected && |selected| == 1 then selected else [tone]
    else if tone in selected then Without(selected, tone)
    else selected + [tone]
  }

  /** A free user always ends up with exactly the toggled tone, so never with no tone at all. */
  lemma ToggleFree(selected: seq<string>, tone: string)
    ensures ToggleTone(selected, tone, false) == [tone]
  {
    if tone in selected && |selected| == 1 {
      assert selected == [selected[0]];
    }
  }

  /**
   * A premium user's toggle flips membership of that tone only; the other tones keep their
   * order (removing the tone before and after gives the same list), and an added tone goes last.
   */
  lemma TogglePremium(selected: seq<string>, tone: string)
    ensures var r := ToggleTone(selected, tone, true);
            && (tone in r <==> tone !in selected)
            && (forall t :: t != tone ==> (t in r <==> t in selected))
            && Without(r, tone) == Without(selected, tone)
            && (tone !in selected ==> r == selected + [tone])
  {
    var r := ToggleTone(selected, tone, true);
    if tone in selected {
      WithoutAbsent(r, tone);
    } else {
      WithoutAppend(selected, [tone], tone);
      WithoutAbsent(selected, tone);
    }
  }

  /** Adding a tone and toggling it again gives the selection back. */
  lemma ToggleTwice(selected: seq<string>, tone: string)
    requires tone !in selected
    ensures ToggleTone(ToggleTone(selected, tone, true), tone, true) == selected
  {
    WithoutAppend(selected, [tone], tone);
    WithoutAbsent(selected, tone);
  }

  // ---------------------------------------------------------------------------------------------
  // The quota

  /** `actualMessagesUsed`: the local count for a guest, the server's count for a signed-in user. */
  function UsedCount(isGuest: bool, localCount: int, messagesUsed: int): int
  {
    if isGuest then localCount else messagesUsed
  }

  /** `messagesLeft`; `None` stands for `Infinity`. */
  function MessagesLeft(limit: int, used: int): Option<int>
  {
    if limit == -1 then None else Some(Max(0, limit - used))
  }

  /** The gate in front of a generation, as written: the local count against the limit. */
  predicate GateAsWritten(isPremium: bool, isGuest: bool, localCount: int)
  {
    !isPremium && localCount >= GetMessageLimit(isPremium, isGuest)
  }

  /** The gate counting what the quota display counts. */
  predicate Gate(isPremium: bool, isGuest: bool, localCount: int, messagesUsed: int)
  {
    !isPremium && UsedCount(isGuest, localCount, messagesUsed) >= GetMessageLimit(isPremium, isGuest)
  }

  /**
   * Only premium users have no bound; a free user is stopped exactly when no message is left,
   * and the number left is the limit minus the count while that is positive.
   */
  lemma GateMatchesMessagesLeft(isPremium: bool, isGuest: bool, localCount: int, messagesUsed: int)
    ensures var used := UsedCount(isGuest, localCount, messagesUsed);
            var left := MessagesLeft(GetMessageLimit(isPremium, isGuest), used);
            && (left.None? <==> isPremium)
            && (Gate(isPremium, isGuest, localCount, messagesUsed) <==> left == Some(0))
            && (left.Some? ==> left.value >= 0 && (left.value > 0 ==> left.value == GetMessageLimit(isPremium, isGuest) - used))
  {
    LimitsOrdered(isPremium, isGuest);
  }

  /** For guests and premium users the two gates agree. */
  lemma GatesAgree(isPremium: bool, isGuest: bool, localCount: int, messagesUsed: int)
    requires isGuest || isPremium
    ensures GateAsWritten(isPremium, isGuest, localCount) == Gate(isPremium, isGuest, localCount, messagesUsed)
  {
  }

  /**
   * A signed-in free user's local count is never written (only guests update it, as
   * `SplitIntoThreads` states), so it reads zero, and the gate as written lets such a user
   * generate whatever the server counts.
   */
  lemma GateAsWrittenNeverStopsSignedIn(messagesUsed: int)
    requires messagesUsed >= GetMessageLimit(false, false)
    ensures !GateAsWritten(false, false, 0)
    ensures Gate(false, false, 0, messagesUsed)
    ensures MessagesLeft(GetMessageLimit(false, false), UsedCount(false, 0, messagesUsed)) == Some(0)
  {
  }

  // ---------------------------------------------------------------------------------------------
  // Generated posts

  /** The generated posts as thread posts: post `i` gets the id `ids(first + i)`, index `i + 1`. */
  function NumberPosts(posts: seq<Formatter.GeminiPost>, ids: nat -> string, first: nat): (r: seq<ThreadPost>)
    ensures |r| == |posts|
  {
    seq(|posts|, i requires 0 <= i < |posts| =>
      ThreadPost(ids(first + i), posts[i].content, false, i + 1, |posts|, posts[i].characterCount,
                 Some(posts[i].hashtags), Some(posts[i].mentions)))
  }

  /** A thread post read back as a generated post. */
  function Unnumbered(p: ThreadPost): Formatter.GeminiPost
  {
    Formatter.GeminiPost(p.content, p.characterCount, p.hashtags.GetOr([]), p.mentions.GetOr([]))
  }

  /** Posts are numbered 1..n with total n, are not being edited, and keep every generated field. */
  lemma NumberingProperties(posts: seq<Formatter.GeminiPost>, ids: nat -> string, first: nat)
    ensures var r := NumberPosts(posts, ids, first);
            && (forall i :: 0 <= i < |r| ==>
                  && r[i].index == i + 1 && r[i].total == |r| && !r[i].isEditing && r[i].id == ids(first + i)
                  && Unnumbered(r[i]) == posts[i])
            && (forall i, j :: 0 <= i < j < |r| ==> r[i].index < r[j].index)
  {
  }

  /** Numbered posts survive the database round trip when their ids and counts are set. */
  lemma NumberedPostsRoundTrip(posts: seq<Formatter.GeminiPost>, ids: nat -> string, first: nat, freshIds: nat -> string)
    requires forall i: nat :: ids(i) != "" && freshIds(i) != ""
    requires forall i :: 0 <= i < |posts| ==> posts[i].characterCount != 0
    ensures var r := NumberPosts(posts, ids, first);
            ConvertDbPostsToThreadPosts(PostArray(ConvertThreadPostsToDb(r)), freshIds) == Some(r)
  {
    var r := NumberPosts(posts, ids, first);
    ConvertersRoundTrip(r, freshIds);
    assert NotEditing(r) == r;
  }

  // ---------------------------------------------------------------------------------------------
  // Editing a post

  function EditedPost(p: ThreadPost, newContent: string): ThreadPost
  {
    p.(content := newContent, characterCount := |newContent|, isEditing := false)
  }

  /** The posts after `editPost`: the ones with the id get the new content. */
  function EditPosts(posts: seq<ThreadPost>, postId: string, newContent: string): (r: seq<ThreadPost>)
    ensures |r| == |posts|
  {
    seq(|posts|, i requires 0 <= i < |posts| =>
      if posts[i].id == postId then EditedPost(posts[i], newContent) else posts[i])
  }

  /** Every post's count is its content's length. */
  predicate CountsMatch(posts: seq<ThreadPost>)
  {
    forall i :: 0 <= i < |posts| ==> posts[i].characterCount == |posts[i].content|
  }

  /**
   * Only the posts with the id change: they get the new content, its length as their count,
   * and leave edit mode; ids, numbering and tags stay; and counts that matched still match.
   */
  lemma EditPostsProperties(posts: seq<ThreadPost>, postId: string, newContent: string)
    ensures var r := EditPosts(posts, postId, newContent);
            && (forall i :: 0 <= i < |r| ==>
                  && r[i].id == posts[i].id && r[i].index == posts[i].index && r[i].total == posts[i].total
                  && r[i].hashtags == posts[i].hashtags && r[i].mentions == posts[i].mentions)
            && (forall i :: 0 <= i < |r| && posts[i].id != postId ==> r[i] == posts[i])
            && (forall i :: 0 <= i < |r| && posts[i].id == postId ==>
                  r[i].content == newContent && r[i].characterCount == |newContent| && !r[i].isEditing)
            && (CountsMatch(posts) ==> CountsMatch(r))
  {
  }

  /** A second edit of the same post replaces the first. */
  lemma EditPostsLastWins(posts: seq<ThreadPost>, postId: string, first: string, second: string)
    ensures EditPosts(EditPosts(posts, postId, first), postId, second) == EditPosts(posts, postId, second)
  {
  }

  /** An id no post has changes nothing. */
  lemma EditUnknownPost(posts: seq<ThreadPost>, postId: string, newContent: string)
    requires forall i :: 0 <= i < |posts| ==> posts[i].id != postId
    ensures EditPosts(posts, postId, newContent) == posts
  {
  }

  /** `messages.find(m => m.id === id)`. */
  function FindMessage(messages: seq<Message>, id: string): (r: Option<Message>)
    ensures r.Some? ==> r.value in messages && r.value.id == id
    ensures r.None? <==> forall i :: 0 <= i < |messages| ==> messages[i].id != id
    ensures r.Some? ==> exists k :: 0 <= k < |messages| && messages[k] == r.value && forall j :: 0 <= j < k ==> messages[j].id != id
  {
    if messages == [] then None
    else if messages[0].id == id then Some(messages[0])
    else
      var r := FindMessage(messages[1..], id);
      assert forall i :: 1 <= i < |messages| ==> messages[i] == messages[1..][i - 1];
      assert r.Some? ==> exists k :: 0 <= k < |messages| && messages[k] == r.value && forall j :: 0 <= j < k ==> messages[j].id != id by {
        if r.Some? {
          var k :| 0 <= k < |messages[1..]| && messages[1..][k] == r.value && forall j :: 0 <= j < k ==> messages[1..][j].id != id;
          assert messages[k + 1] == r.value;
        }
      }
      r
  }

  /** The posts of the first message with the id in the first chat with the active id, if any. */
  function EditedMessagePosts(chats: seq<Chat>, activeChat: Option<string>, messageId: string): Option<seq<ThreadPost>>
  {
    if activeChat.None? then None
    else match FindChat(chats, activeChat.value)
      case None => None
      case Some(chat) =>
        match FindMessage(chat.messages, messageId)
        case None => None
        case Some(message) => message.posts
  }

  /**
   * The update `editPost` sends, and `None` when it returns early: an update is sent exactly
   * when the active chat's message has posts, and it carries only those posts, edited.
   */
  function EditUpdate(chats: seq<Chat>, activeChat: Option<string>, messageId: string, postId: string,
                      newContent: string): (r: Option<MessageUpdate>)
    ensures r.Some? ==> activeChat.Some? && HasChat(chats, activeChat.value) && r.value.posts.Some?
    ensures r.Some? <==> EditedMessagePosts(chats, activeChat, messageId).Some?
    ensures r.Some? ==>
              r.value == MessageUpdate(None, None, None, None,
                                       Some(EditPosts(EditedMessagePosts(chats, activeChat, messageId).value, postId, newContent)),
                                       None, None, None, None)
  {
    if activeChat.None? then None
    else match FindChat(chats, activeChat.value)
      case None => None
      case Some(chat) =>
        match FindMessage(chat.messages, messageId)
        case None => None
        case Some(message) =>
          if message.posts.None? then None
          else Some(MessageUpdate(None, None, None, None, Some(EditPosts(message.posts.value, postId, newContent)),
                                  None, None, None, None))
  }

  // ---------------------------------------------------------------------------------------------
  // The chat a generation produces

  function UserMessage(id: string, input: string, now: int, platform: string, tones: seq<string>, useEmojis: bool): Message
  {
    Message(id, User, input, now, None, Some(platform), Some(tones), Some(useEmojis), None)
  }

  /** The reply message: "Generated N posts for P", carrying the posts. */
  function AiMessage(id: string, posts: seq<ThreadPost>, now: int, platform: string, tones: seq<string>, useEmojis: bool): Message
  {
    Message(id, Ai, "Generated " + NatToRadix(|posts|, 10) + " posts for " + platform, now, Some(posts),
            Some(platform), Some(tones), Some(useEmojis), None)
  }

  /** `activeChat && currentChat`: the open chat a generation continues, if any. */
  function ContinuedChat(chats: seq<Chat>, activeChat: Option<string>): Option<Chat>
  {
    if activeChat.Some? && activeChat.value != "" then FindChat(chats, activeChat.value) else None
  }

  /** `updatedChat`: the open chat with the new messages appended, or a new chat holding them. */
  function ThreadChat(current: Option<Chat>, newId: string, input: string, now: int, platform: string,
                      tones: seq<string>, useEmojis: bool, messages: seq<Message>): Chat
  {
    match current
    case Some(chat) => chat.(messages := chat.messages + messages)
    case None => Chat(newId, ChatTitle(input), now, Preview(input), messages, platform, tones, useEmojis)
  }

  /**
   * A continued chat keeps its id, title, settings and earlier messages; a new chat is titled
   * and previewed from the input; either way the new messages come last.
   */
  lemma ThreadChatProperties(current: Option<Chat>, newId: string, input: string, now: int, platform: string,
                             tones: seq<string>, useEmojis: bool, messages: seq<Message>)
    ensures var c := ThreadChat(current, newId, input, now, platform, tones, useEmojis, messages);
            && |c.messages| >= |messages|
            && c.messages[|c.messages| - |messages|..] == messages
            && (current.Some? ==> c.id == current.value.id && c.title == current.value.title
                                  && c.messages[..|current.value.messages|] == current.value.messages
                                  && c.platform == current.value.platform && c.tone == current.value.tone)
            && (current.None? ==> c.id == newId && c.messages == messages && c.title == ChatTitle(input)
                                  && c.preview == Preview(input) && c.platform == platform && c.tone == tones)
  {
    var c := ThreadChat(current, newId, input, now, platform, tones, useEmojis, messages);
    if current.Some? {
      assert c.messages == current.value.messages + messages;
    }
  }

  /** Whether the generation call reports a failure. */
  predicate GenerationFails(configuredKey: Option<string>, reply: Formatter.ProviderReply)
  {
    !Formatter.UsesMock(Formatter.ApiKey(configuredKey)) && reply.CallFailed?
  }

  /** How a press of the send button ends. */
  datatype Outcome =
    | GuestPromptShown
    | PremiumDialogShown
    | Failed(message: string)
    | Generated(response: Formatter.GeminiResponse, chat: Chat)

  // ---------------------------------------------------------------------------------------------
  // The screen

  class ThreadCutterScreen {
    /** `user?.id`. */
    const userId: Option<string>
    /** From `usePremium`. */
    const isPremium: bool
    const storage: BrowserStorage
    /** The `useChats` hook of this user. */
    const store: ChatStore

    var input: string
    var selectedPlatform: string
    var selectedTones: seq<string>
    var useEmojis: bool
    var activeChat: Option<string>
    var showGuestPrompt: bool
    var showPremiumDialog: bool
    var localMessageUsage: int
    /** The server's count for today, from `usePremium`. */
    var messagesUsed: int

    constructor (userId: Option<string>, isPremium: bool, messagesUsed: int, storage: BrowserStorage)
      ensures this.userId == userId && this.isPremium == isPremium && this.messagesUsed == messagesUsed
      ensures this.storage == storage && fresh(store) && store.userId == userId && store.chats == []
      ensures input == "" && selectedPlatform == "twitter" && selectedTones == ["neutral"] && !useEmojis
      ensures activeChat == None && !showGuestPrompt && !showPremiumDialog && localMessageUsage == 0
    {
      this.userId := userId;
      this.isPremium := isPremium;
      this.storage := storage;
      this.messagesUsed := messagesUsed;
      store := new ChatStore(userId);
      input := "";
      selectedPlatform := "twitter";
      selectedTones := ["neutral"];
      useEmojis := false;
      activeChat := None;
      showGuestPrompt := false;
      showPremiumDialog := false;
      localMessageUsage := 0;
    }

    /** No signed-in user (`isGuest`); an empty id is treated as none, as every consumer does. */
    predicate IsGuest() { !IsUser(userId) }

    /** Today's local count for this user on this device, as `getMessageUsage` reads it. */
    function LocalCount(today: string, fingerprint: seq<CodeUnit>): int
      reads storage
    {
      var deviceId := storage.DeviceIdFor(fingerprint);
      ReadUsage(storage.usageItem, UsageKey(userId, deviceId), today, userId, deviceId).count
    }

    /** Whether a press of the send button is stopped by the quota, as the screen decides it. */
    predicate Blocked(today: string, fingerprint: seq<CodeUnit>)
      reads this, storage
    {
      GateAsWritten(isPremium, IsGuest(), LocalCount(today, fingerprint))
    }

    /** Whether the press would be stopped if the gate counted what the quota display counts. */
    predicate BlockedAsIntended(today: string, fingerprint: seq<CodeUnit>)
      reads this, storage
    {
      Gate(isPremium, IsGuest(), LocalCount(today, fingerprint), messagesUsed)
    }

    /** For a guest or a premium user the screen's gate is the intended one. */
    lemma BlockedAsIntendedForGuests(today: string, fingerprint: seq<CodeUnit>)
      requires IsGuest() || isPremium
      ensures Blocked(today, fingerprint) == BlockedAsIntended(today, fingerprint)
    {
      GatesAgree(isPremium, IsGuest(), LocalCount(today, fingerprint), messagesUsed);
    }

    /** `handleToneToggle`. */
    method HandleToneToggle(tone: string)
      modifies this`selectedTones
      ensures selectedTones == ToggleTone(old(selectedTones), tone, isPremium)
    {
      if !isPremium {
        if tone in selectedTones && |selectedTones| == 1 {
          return;
        }
        selectedTones := [tone];
      } else {
        selectedTones := if tone in selectedTones then Without(selectedTones, tone) else selectedTones + [tone];
      }
    }

    /** The chat a successful generation of `posts` produces from the current state. */
    function NextChat(posts: seq<Formatter.GeminiPost>, ids: nat -> string, now: int): Chat
      reads this, store
    {
      ThreadChat(ContinuedChat(store.chats, activeChat), ids(|posts| + 2), input, now, selectedPlatform, selectedTones, useEmojis,
                 [UserMessage(ids(0), input, now, selectedPlatform, selectedTones, useEmojis),
                  AiMessage(ids(|posts| + 1), NumberPosts(posts, ids, 1), now, selectedPlatform, selectedTones, useEmojis)])
    }

    /** The device id is already stored (the first read of the ledger stores it). */
    predicate DeviceKnown()
      reads storage
    {
      storage.deviceIdItem.Some? && storage.deviceIdItem.value != ""
    }

    /**
     * Counting a generated message: in the browser ledger for a guest, on the server for a
     * signed-in free user (`incrementUsage`, which counts only when its write succeeds), and
     * not at all for a premium user.
     */
    method CountMessage(today: string, fingerprint: seq<CodeUnit>, writeSucceeds: bool, incrementSucceeds: bool)
      requires DeviceKnown()
      modifies this`localMessageUsage, this`messagesUsed, storage
      ensures storage.deviceIdItem == old(storage.deviceIdItem)
      ensures !isPremium && IsGuest() ==>
                var deviceId := storage.DeviceIdFor(fingerprint);
                if old(storage.usageItem).Corrupt? || !writeSucceeds then
                  storage.usageItem == old(storage.usageItem) && localMessageUsage == 1
                else
                  && storage.usageItem == Updated(old(storage.usageItem), UsageKey(userId, deviceId), today, userId, deviceId, 1)
                  && localMessageUsage == old(LocalCount(today, fingerprint)) + 1
      ensures !(!isPremium && IsGuest()) ==>
                storage.usageItem == old(storage.usageItem) && localMessageUsage == old(localMessageUsage)
      ensures messagesUsed == old(messagesUsed) + (if !isPremium && !IsGuest() && incrementSucceeds then 1 else 0)
    {
      if !isPremium {
        if IsGuest() {
          var newUsage := storage.UpdateMessageUsage(userId, 1, today, fingerprint, writeSucceeds);
          localMessageUsage := newUsage.count;
        } else if incrementSucceeds {
          messagesUsed := messagesUsed + 1;
        }
      }
    }

    /**
     * What follows a successful generation: the chat is built and saved (a new chat becomes the
     * active one), the message is counted, a guest one message short of the limit is shown the
     * sign-up prompt, and the input is cleared.
     */
    method Publish(posts: seq<Formatter.GeminiPost>, today: string, fingerprint: seq<CodeUnit>, now: int,
                   ids: nat -> string, dbChatId: string, dbMessageIds: nat -> string,
                   dbSucceeds: bool, writeSucceeds: bool, incrementSucceeds: bool)
      returns (chat: Chat)
      requires DeviceKnown()
      modifies this`input, this`activeChat, this`showGuestPrompt, this`localMessageUsage, this`messagesUsed, storage, store
      ensures chat == old(NextChat(posts, ids, now))
      ensures activeChat == if old(ContinuedChat(store.chats, activeChat)).None? then Some(chat.id) else old(activeChat)
      ensures input == ""
      ensures store.chats == if !store.SignedIn() then UpsertChat(old(store.chats), chat)
                             else if dbSucceeds then UpsertChat(old(store.chats), PersistedChat(chat, dbChatId, dbMessageIds))
                             else old(store.chats)
      ensures storage.deviceIdItem == old(storage.deviceIdItem)
      ensures !isPremium && IsGuest() ==>
                var deviceId := storage.DeviceIdFor(fingerprint);
                if old(storage.usageItem).Corrupt? || !writeSucceeds then
                  storage.usageItem == old(storage.usageItem) && localMessageUsage == 1
                else
                  && storage.usageItem == Updated(old(storage.usageItem), UsageKey(userId, deviceId), today, userId, deviceId, 1)
                  && localMessageUsage == old(LocalCount(today, fingerprint)) + 1
      ensures !(!isPremium && IsGuest()) ==>
                storage.usageItem == old(storage.usageItem) && localMessageUsage == old(localMessageUsage)
      ensures messagesUsed == old(messagesUsed) + (if !isPremium && !IsGuest() && incrementSucceeds then 1 else 0)
      ensures showGuestPrompt ==
                (old(showGuestPrompt) || (IsGuest() && LocalCount(today, fingerprint) >= GetMessageLimit(isPremium, IsGuest()) - 1))
    {
      chat := StartChat(posts, now, ids, dbChatId, dbMessageIds, dbSucceeds);
      CountMessage(today, fingerprint, writeSucceeds, incrementSucceeds);
      PromptNearLimit(today, fingerprint);
      input := "";
    }

    /** The chat is built from the posts and saved; a new chat becomes the active one. */
    method StartChat(posts: seq<Formatter.GeminiPost>, now: int, ids: nat -> string,
                     dbChatId: string, dbMessageIds: nat -> string, dbSucceeds: bool)
      returns (chat: Chat)
      modifies this`activeChat, store
      ensures chat == old(NextChat(posts, ids, now))
      ensures activeChat == if old(ContinuedChat(store.chats, activeChat)).None? then Some(chat.id) else old(activeChat)
      ensures store.chats == if !store.SignedIn() then UpsertChat(old(store.chats), chat)
                             else if dbSucceeds then UpsertChat(old(store.chats), PersistedChat(chat, dbChatId, dbMessageIds))
                             else old(store.chats)
    {
      chat := NextChat(posts, ids, now);
      if ContinuedChat(store.chats, activeChat).None? {
        activeChat := Some(chat.id);
      }
      store.SaveChat(chat, dbChatId, dbMessageIds, dbSucceeds);
    }

    /** A guest whose count, read back after counting, is one short of the limit gets the sign-up prompt. */
    method PromptNearLimit(today: string, fingerprint: seq<CodeUnit>)
      requires DeviceKnown()
      modifies this`showGuestPrompt, storage
      ensures storage.deviceIdItem == old(storage.deviceIdItem) && storage.usageItem == old(storage.usageItem)
      ensures showGuestPrompt ==
                (old(showGuestPrompt) || (IsGuest() && LocalCount(today, fingerprint) >= GetMessageLimit(isPremium, IsGuest()) - 1))
    {
      var updatedUsage := storage.GetMessageUsage(userId, today, fingerprint);
      if IsGuest() && updatedUsage.count >= GetMessageLimit(isPremium, IsGuest()) - 1 {
        showGuestPrompt := true;
      }
    }

    /**
     * `splitIntoThreads`. A non-premium user whose count in the browser ledger has reached the
     * limit gets the sign-up prompt (guest) or the premium dialog and nothing else happens;
     * for a signed-in user that count is never written (see `GateAsWrittenNeverStopsSignedIn`). Otherwise the posts are generated (at most 10
     * asked for); a failure leaves chats and usage alone, and a success is published. `ids`
     * stand for the `uuidv4` calls in order (user message, posts, reply, new chat);
     * `dbChatId` and `dbMessageIds` for the ones a signed-in save makes.
     */
    method SplitIntoThreads(today: string, fingerprint: seq<CodeUnit>, now: int,
                            configuredKey: Option<string>, reply: Formatter.ProviderReply,
                            ids: nat -> string, dbChatId: string, dbMessageIds: nat -> string,
                            dbSucceeds: bool, writeSucceeds: bool, incrementSucceeds: bool)
      returns (outcome: Outcome)
      modifies this`input, this`activeChat, this`showGuestPrompt, this`showPremiumDialog
      modifies this`localMessageUsage, this`messagesUsed, storage, store
      ensures storage.deviceIdItem == Some(old(storage.DeviceIdFor(fingerprint)))
      ensures old(Blocked(today, fingerprint)) ==>
                && outcome == (if IsGuest() then GuestPromptShown else PremiumDialogShown)
                && showPremiumDialog == (old(showPremiumDialog) || !IsGuest())
      ensures !old(Blocked(today, fingerprint)) ==> showPremiumDialog == old(showPremiumDialog)
      ensures outcome.Failed? <==> !old(Blocked(today, fingerprint)) && GenerationFails(configuredKey, reply)
      ensures outcome.Failed? ==> outcome.message == OrString(Some(reply.message), "Failed to generate thread")
      ensures !outcome.Generated? ==>
                && store.chats == old(store.chats) && storage.usageItem == old(storage.usageItem)
                && messagesUsed == old(messagesUsed) && localMessageUsage == old(localMessageUsage)
                && input == old(input) && activeChat == old(activeChat)
                && showGuestPrompt == (old(showGuestPrompt) || outcome == GuestPromptShown)
      ensures outcome.Generated? ==>
                && outcome.response.success
                && (Formatter.UsesMock(Formatter.ApiKey(configuredKey)) ==> |outcome.response.posts| <= 10)
                && outcome.chat == old(NextChat(outcome.response.posts, ids, now))
                && activeChat == (if old(ContinuedChat(store.chats, activeChat)).None? then Some(outcome.chat.id) else old(activeChat))
                && input == ""
                && store.chats == (if !store.SignedIn() then UpsertChat(old(store.chats), outcome.chat)
                                   else if dbSucceeds then UpsertChat(old(store.chats), PersistedChat(outcome.chat, dbChatId, dbMessageIds))
                                   else old(store.chats))
      ensures outcome.Generated? && !isPremium && IsGuest() ==>
                var deviceId := old(storage.DeviceIdFor(fingerprint));
                if old(storage.usageItem).Corrupt? || !writeSucceeds then
                  storage.usageItem == old(storage.usageItem) && localMessageUsage == 1
                else
                  && storage.usageItem == Updated(old(storage.usageItem), UsageKey(userId, deviceId), today, userId, deviceId, 1)
                  && localMessageUsage == old(LocalCount(today, fingerprint)) + 1
      ensures !(outcome.Generated? && !isPremium && IsGuest()) ==>
                storage.usageItem == old(storage.usageItem) && localMessageUsage == old(localMessageUsage)
      ensures messagesUsed == old(messagesUsed) + (if outcome.Generated? && !isPremium && !IsGuest() && incrementSucceeds then 1 else 0)
      ensures outcome.Generated? ==>
                showGuestPrompt == (old(showGuestPrompt) ||
                                    (IsGuest() && LocalCount(today, fingerprint) >= GetMessageLimit(isPremium, IsGuest()) - 1))
    {
      var currentUsage := storage.GetMessageUsage(userId, today, fingerprint);
      if GateAsWritten(isPremium, IsGuest(), currentUsage.count) {
        if IsGuest() {
          showGuestPrompt := true;
          outcome := GuestPromptShown;
        } else {
          showPremiumDialog := true;
          outcome := PremiumDialogShown;
        }
        return;
      }
      var options := Formatter.RequestOptions(input, selectedTones, selectedPlatform, useEmojis, Some(10), None);
      var response := Formatter.CallGeminiAPI(options, configuredKey, reply);
      if !response.success {
        outcome := Failed(OrString(response.error, "Failed to generate thread"));
        return;
      }
      var chat := Publish(response.posts, today, fingerprint, now, ids, dbChatId, dbMessageIds,
                          dbSucceeds, writeSucceeds, incrementSucceeds);
      outcome := Generated(response, chat);
    }

    /** `editPost`: sends the edited posts of the message to the store, or returns early. */
    method EditPost(messageId: string, postId: string, newContent: string, dbSucceeds: bool)
      modifies store
      ensures store.chats == match EditUpdate(old(store.chats), activeChat, messageId, postId, newContent)
                             case None => old(store.chats)
                             case Some(u) =>
                               if UpdateWritesDb(store.userId, u) && !dbSucceeds then old(store.chats)
                               else UpdateMessageIn(old(store.chats), activeChat.value, messageId, u)
    {
      if activeChat.None? {
        return;
      }
      var chat := FindChat(store.chats, activeChat.value);
      if chat.None? {
        return;
      }
      var message := FindMessage(chat.value.messages, messageId);
      if message.None? || message.value.posts.None? {
        return;
      }
      var updatedPosts := EditPosts(message.value.posts.value, postId, newContent);
      store.UpdateMessage(activeChat.value, messageId,
                          MessageUpdate(None, None, None, None, Some(updatedPosts), None, None, None, None), dbSucceeds);
    }
  }
}

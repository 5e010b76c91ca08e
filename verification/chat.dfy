/** Buyer–seller chat: the conversation service (src/services/chatService.ts),
    the conversation list (src/pages/chat/MessagesList.tsx), the message
    cache hooks (src/hooks/useMessages.ts, src/hooks/useChatActions.ts) and
    the chat room's composer, offers and deal cards
    (src/pages/chat/ChatRoom.tsx). */
module Chat {
  import opened Wrappers
  import opened Text
  import opened Sorting
  import opened Entities

  datatype MediaKind = Image | Video

  /** A row of `messages`. */
  datatype Message = Message(
    id: string,
    conversationId: string,
    senderId: string,
    content: string,
    mediaUrl: Option<string>,
    mediaType: Option<MediaKind>,
    stickerId: Option<string>,
    orderId: Option<string>,
    isRead: bool,
    createdAt: int)

  /** A row of `conversations`, with the joined party names and the
      viewer-specific previews the database keeps up to date. A missing
      `hidden_for_*` flag reads as `false`. */
  datatype Conversation = Conversation(
    id: string,
    buyerId: string,
    sellerId: string,
    productId: string,
    affiliateId: Option<string>,
    lastMessageAt: Option<int>,
    previewForBuyer: Option<string>,
    previewForSeller: Option<string>,
    previewForBuyerAt: Option<int>,
    previewForSellerAt: Option<int>,
    mediaForBuyer: Option<MediaKind>,
    mediaForSeller: Option<MediaKind>,
    hiddenForBuyer: bool,
    hiddenForSeller: bool,
    buyerName: Option<string>,
    sellerFullName: Option<string>,
    sellerStoreName: Option<string>,
    unreadCount: Option<int>)

  // ---------------------------------------------------------------- chatService

  /** The `.or(buyer_id.eq.user, seller_id.eq.user)` filter. */
  predicate Involves(c: Conversation, user: string) {
    c.buyerId == user || c.sellerId == user
  }

  /** Not hidden on the viewer's side: the buyer's flag when the viewer is
      the buyer, the seller's otherwise. */
  predicate VisibleTo(c: Conversation, user: string) {
    if c.buyerId == user then !c.hiddenForBuyer else !c.hiddenForSeller
  }

  /** An unread message in one of `ids`, not sent by `user`: what the
      unread query selects. */
  predicate UnreadIn(m: Message, ids: set<string>, user: string) {
    m.conversationId in ids && !m.isRead && m.senderId != user
  }

  /** The `conversation_id` column of the unread query's rows. */
  function UnreadIds(msgs: seq<Message>, ids: set<string>, user: string): (r: seq<string>)
    ensures forall k :: k in r ==> k in ids
  {
    if msgs == [] then []
    else (if UnreadIn(msgs[0], ids, user) then [msgs[0].conversationId] else []) + UnreadIds(msgs[1..], ids, user)
  }

  /** The `reduce` building `unreadMap`: one count per conversation id,
      accumulated from the first row to the last. */
  function Tally(ids: seq<string>): (m: map<string, nat>)
    ensures forall k :: k in m ==> k in ids
  {
    if ids == [] then map[]
    else
      var acc := Tally(ids[..|ids| - 1]);
      var k := ids[|ids| - 1];
      acc[k := (if k in acc then acc[k] else 0) + 1]
  }

  /** `unreadMap[id] || 0`. */
  function Lookup(m: map<string, nat>, k: string): nat {
    if k in m then m[k] else 0
  }

  /** The tally holds, for every id, the number of times it occurs. */
  lemma {:induction false} TallyCounts(ids: seq<string>, k: string)
    ensures Lookup(Tally(ids), k) == multiset(ids)[k]
    decreases |ids|
  {
    if ids != [] {
      var init := ids[..|ids| - 1];
      assert ids == init + [ids[|ids| - 1]];
      TallyCounts(init, k);
    }
  }

  /** The unread messages of conversation `k` that `user` did not send. */
  predicate UnreadFrom(m: Message, k: string, user: string) {
    m.conversationId == k && !m.isRead && m.senderId != user
  }

  /** The id column counts, for a listed conversation, exactly its unread
      messages from others. */
  lemma {:induction false} UnreadIdsCount(msgs: seq<Message>, ids: set<string>, user: string, k: string)
    requires k in ids
    ensures multiset(UnreadIds(msgs, ids, user))[k] == Count(msgs, m => UnreadFrom(m, k, user))
    decreases |msgs|
  {
    if msgs != [] {
      UnreadIdsCount(msgs[1..], ids, user, k);
      var head := if UnreadIn(msgs[0], ids, user) then [msgs[0].conversationId] else [];
      assert UnreadIds(msgs, ids, user) == head + UnreadIds(msgs[1..], ids, user);
    }
  }

  function IdSet(cs: seq<Conversation>): (r: set<string>)
    ensures forall i :: 0 <= i < |cs| ==> cs[i].id in r
  {
    set i | 0 <= i < |cs| :: cs[i].id
  }

  /** getConversations. `table` holds the conversations in the order the
      database returns them (last message first); `unreadFails` is a failed
      unread query, whose rows then read as none. A failed conversation
      query is `None`. */
  function Conversations(table: seq<Conversation>, msgs: seq<Message>, user: string,
                         queryFails: bool, unreadFails: bool): (r: Option<seq<Conversation>>)
    ensures r.None? <==> queryFails
    ensures r.Some? ==> |r.value| == |Filter(Filter(table, c => Involves(c, user)), c => VisibleTo(c, user))|
    ensures r.Some? ==> forall i :: 0 <= i < |r.value| ==>
              r.value[i] == Filter(Filter(table, c => Involves(c, user)), c => VisibleTo(c, user))[i]
                              .(unreadCount := r.value[i].unreadCount)
  {
    if queryFails then None
    else
      var visible := Filter(Filter(table, c => Involves(c, user)), c => VisibleTo(c, user));
      if visible == [] then Some([])
      else
        var unread := if unreadFails then [] else UnreadIds(msgs, IdSet(visible), user);
        var counts := Tally(unread);
        Some(seq(|visible|, i requires 0 <= i < |visible| => visible[i].(unreadCount := Some(Lookup(counts, visible[i].id)))))
  }

  /** Each listed conversation is one the viewer takes part in and has not
      hidden, and its unread count is the number of its unread messages
      sent by the other party (0 when that query failed). */
  lemma ListedConversation(table: seq<Conversation>, msgs: seq<Message>, user: string, unreadFails: bool, i: nat)
    requires var r := Conversations(table, msgs, user, false, unreadFails); i < |r.value|
    ensures var c := Conversations(table, msgs, user, false, unreadFails).value[i];
            && c.id in IdSet(table) && Involves(c, user) && VisibleTo(c, user)
            && c.unreadCount == Some(if unreadFails then 0 else Count(msgs, m => UnreadFrom(m, c.id, user)))
  {
    var visible := Filter(Filter(table, c => Involves(c, user)), c => VisibleTo(c, user));
    var c := visible[i];
    assert c in visible;
    assert c in table;
    if !unreadFails {
      var ids := IdSet(visible);
      TallyCounts(UnreadIds(msgs, ids, user), c.id);
      UnreadIdsCount(msgs, ids, user, c.id);
    }
  }

  /** Unread messages sent to `user` in conversations they take part in, as
      getUnreadCount counts them; 0 when the query fails. */
  function UnreadTotal(msgs: seq<Message>, convs: seq<Conversation>, user: string, queryFails: bool): (n: nat)
    ensures queryFails ==> n == 0
    ensures n <= |msgs|
  {
    if queryFails then 0
    else Count(msgs, (m: Message) => !m.isRead && m.senderId != user
                          && exists c :: c in convs && c.id == m.conversationId && Involves(c, user))
  }

  /** markAsRead: every unread message of the conversation sent by someone
      other than `user` becomes read; nothing else changes. */
  function MarkAsRead(msgs: seq<Message>, convId: string, user: string): (r: seq<Message>)
    ensures |r| == |msgs|
    ensures forall i :: 0 <= i < |msgs| ==>
              r[i] == if UnreadFrom(msgs[i], convId, user) then msgs[i].(isRead := true) else msgs[i]
  {
    seq(|msgs|, i requires 0 <= i < |msgs| =>
      if UnreadFrom(msgs[i], convId, user) then msgs[i].(isRead := true) else msgs[i])
  }

  /** After markAsRead the conversation has no unread message for `user`,
      every other conversation keeps its count, and a second call changes
      nothing. */
  lemma MarkAsReadClears(msgs: seq<Message>, convId: string, user: string, other: string)
    requires other != convId
    ensures Count(MarkAsRead(msgs, convId, user), m => UnreadFrom(m, convId, user)) == 0
    ensures Count(MarkAsRead(msgs, convId, user), m => UnreadFrom(m, other, user))
         == Count(msgs, m => UnreadFrom(m, other, user))
    ensures MarkAsRead(MarkAsRead(msgs, convId, user), convId, user) == MarkAsRead(msgs, convId, user)
  {
    var r := MarkAsRead(msgs, convId, user);
    CountNone(r, m => UnreadFrom(m, convId, user));
    CountSame(r, msgs, m => UnreadFrom(m, other, user));
  }

  /** Opening a conversation lowers the unread total by exactly the
      conversation's unread messages. */
  lemma {:induction false} ReadingLowersTotal(msgs: seq<Message>, convs: seq<Conversation>, c: Conversation, user: string)
    requires c in convs && Involves(c, user)
    ensures UnreadTotal(MarkAsRead(msgs, c.id, user), convs, user, false) + Count(msgs, m => UnreadFrom(m, c.id, user))
         == UnreadTotal(msgs, convs, user, false)
    decreases |msgs|
  {
    if msgs != [] {
      assert MarkAsRead(msgs, c.id, user)[1..] == MarkAsRead(msgs[1..], c.id, user);
      ReadingLowersTotal(msgs[1..], convs, c, user);
    }
  }

  lemma {:induction false} CountNone<T>(s: seq<T>, p: T -> bool)
    requires forall i :: 0 <= i < |s| ==> !p(s[i])
    ensures Count(s, p) == 0
    decreases |s|
  {
    if s != [] {
      CountNone(s[1..], p);
    }
  }

  lemma {:induction false} CountSame<T>(a: seq<T>, b: seq<T>, p: T -> bool)
    requires |a| == |b| && forall i :: 0 <= i < |a| ==> p(a[i]) == p(b[i])
    ensures Count(a, p) == Count(b, p)
    decreases |a|
  {
    if a != [] {
      CountSame(a[1..], b[1..], p);
    }
  }

  /** At most one conversation per (buyer, seller, product) triple. */
  predicate UniqueTriples(cs: seq<Conversation>) {
    forall i, j :: 0 <= i < j < |cs| ==>
      (cs[i].buyerId, cs[i].sellerId, cs[i].productId) != (cs[j].buyerId, cs[j].sellerId, cs[j].productId)
  }

  predicate SameTriple(c: Conversation, buyer: string, seller: string, product: string) {
    c.buyerId == buyer && c.sellerId == seller && c.productId == product
  }

  /** Position of the conversation for a triple, or `|cs|`. */
  function TripleIndex(cs: seq<Conversation>, buyer: string, seller: string, product: string): (i: nat)
    ensures i <= |cs|
    ensures i < |cs| ==> SameTriple(cs[i], buyer, seller, product)
    ensures forall j :: 0 <= j < i ==> !SameTriple(cs[j], buyer, seller, product)
  {
    if cs == [] then 0
    else if SameTriple(cs[0], buyer, seller, product) then 0
    else 1 + TripleIndex(cs[1..], buyer, seller, product)
  }

  /** A new conversation row. */
  function NewConversation(id: string, buyer: string, seller: string, product: string,
                           affiliate: Option<string>): Conversation {
    Conversation(id, buyer, seller, product, affiliate, None, None, None, None, None, None, None,
                 false, false, None, None, None, None)
  }

  /** createConversation: the existing conversation for the triple, or a
      new one inserted with the given id (an insert error is `insertError`). */
  function CreateConversation(cs: seq<Conversation>, buyer: string, seller: string, product: string,
                              affiliate: Option<string>, newId: string, insertError: Option<string>)
    : (r: Result<(seq<Conversation>, Conversation)>)
    requires UniqueTriples(cs)
    ensures r.Ok? ==> UniqueTriples(r.value.0) && SameTriple(r.value.1, buyer, seller, product)
                      && r.value.1 in r.value.0
    ensures TripleIndex(cs, buyer, seller, product) < |cs| ==>
              r == Ok((cs, cs[TripleIndex(cs, buyer, seller, product)]))
    ensures TripleIndex(cs, buyer, seller, product) == |cs| ==>
              (r.Err? <==> insertError.Some?)
              && (r.Ok? ==> r.value.0 == cs + [r.value.1] && r.value.1.id == newId)
  {
    var i := TripleIndex(cs, buyer, seller, product);
    if i < |cs| then Ok((cs, cs[i]))
    else if insertError.Some? then Err(insertError.value)
    else
      var c := NewConversation(newId, buyer, seller, product, affiliate);
      var r := cs + [c];
      assert forall j :: 0 <= j < |cs| ==> !SameTriple(cs[j], buyer, seller, product);
      Ok((r, c))
  }

  /** Opening a chat about the same product twice lands in the same
      conversation and inserts nothing the second time. */
  lemma CreateConversationIdempotent(cs: seq<Conversation>, buyer: string, seller: string, product: string,
                                     affiliate: Option<string>, newId: string, newId2: string,
                                     affiliate2: Option<string>, insertError2: Option<string>)
    requires UniqueTriples(cs)
    requires CreateConversation(cs, buyer, seller, product, affiliate, newId, None).Ok?
    ensures var (once, c) := CreateConversation(cs, buyer, seller, product, affiliate, newId, None).value;
            CreateConversation(once, buyer, seller, product, affiliate2, newId2, insertError2) == Ok((once, c))
  {
    var (once, c) := CreateConversation(cs, buyer, seller, product, affiliate, newId, None).value;
    var i := TripleIndex(once, buyer, seller, product);
    var j :| 0 <= j < |once| && once[j] == c;
    assert SameTriple(once[j], buyer, seller, product);
    assert i == j;
  }

  /** hideConversation (`hidden = true`) and unhideConversation (`false`):
      sets only the caller's flag, on the conversation with the given id. */
  function SetHidden(cs: seq<Conversation>, id: string, isBuyer: bool, hidden: bool): (r: seq<Conversation>)
    ensures |r| == |cs|
    ensures forall i :: 0 <= i < |cs| ==>
              if cs[i].id != id then r[i] == cs[i]
              else if isBuyer then r[i] == cs[i].(hiddenForBuyer := hidden)
              else r[i] == cs[i].(hiddenForSeller := hidden)
  {
    seq(|cs|, i requires 0 <= i < |cs| =>
      if cs[i].id != id then cs[i]
      else if isBuyer then cs[i].(hiddenForBuyer := hidden)
      else cs[i].(hiddenForSeller := hidden))
  }

  /** Hiding a conversation from the side the viewer is on removes it from
      their list and leaves the other party's view unchanged; unhiding
      brings it back. */
  lemma HideFromOwnSide(c: Conversation, user: string, other: string, hidden: bool)
    requires Involves(c, user) && Involves(c, other) && c.buyerId != c.sellerId && user != other
    ensures var h := SetHidden([c], c.id, user == c.buyerId, hidden)[0];
            && (VisibleTo(h, user) <==> !hidden)
            && (VisibleTo(h, other) <==> VisibleTo(c, other))
  {
  }

  // ---------------------------------------------------------------- MessagesList

  /** `user.id === conv.buyer_id`. */
  predicate ViewsAsBuyer(c: Conversation, user: string) {
    user == c.buyerId
  }

  /** The other party's name in the list: the seller's store name, else
      their full name, else "Boutique" for a buyer; the buyer's full name,
      else "Client" for a seller. */
  function ListName(c: Conversation, user: string): (s: string)
    ensures s != ""
    ensures ViewsAsBuyer(c, user) && Truthy(c.sellerStoreName) ==> s == c.sellerStoreName.value
    ensures ViewsAsBuyer(c, user) && !Truthy(c.sellerStoreName) && Truthy(c.sellerFullName) ==> s == c.sellerFullName.value
    ensures !ViewsAsBuyer(c, user) && Truthy(c.buyerName) ==> s == c.buyerName.value
  {
    if ViewsAsBuyer(c, user) then OrElse(c.sellerStoreName, OrElse(c.sellerFullName, "Boutique"))
    else OrElse(c.buyerName, "Client")
  }

  /** The line under the name. */
  datatype Preview = PhotoPreview | VideoPreview | TextPreview(text: string) | NoPreview

  function PreviewText(p: Preview): string {
    match p
    case PhotoPreview => "\U{1F4F7} Photo"
    case VideoPreview => "\U{1F3A5} Vid\U{00E9}o"
    case TextPreview(t) => t
    case NoPreview => ""
  }

  /** getPreviewText on the viewer's own preview fields: a photo or video
      icon when the last message carried media, else its text, else none. */
  function ListPreview(c: Conversation, user: string): (p: Preview)
    ensures var media := if ViewsAsBuyer(c, user) then c.mediaForBuyer else c.mediaForSeller;
            var text := if ViewsAsBuyer(c, user) then c.previewForBuyer else c.previewForSeller;
            && (media == Some(Image) <==> p == PhotoPreview)
            && (media == Some(Video) <==> p == VideoPreview)
            && (p.TextPreview? <==> media.None? && Truthy(text))
            && (p.TextPreview? ==> p.text == text.value)
  {
    var media := if ViewsAsBuyer(c, user) then c.mediaForBuyer else c.mediaForSeller;
    var text := if ViewsAsBuyer(c, user) then c.previewForBuyer else c.previewForSeller;
    match media
    case Some(Image) => PhotoPreview
    case Some(Video) => VideoPreview
    case None => if Truthy(text) then TextPreview(text.value) else NoPreview
  }

  /** The time shown: the viewer's own preview time, else the conversation's. */
  function ListTime(c: Conversation, user: string): (t: Option<int>)
    ensures var own := if ViewsAsBuyer(c, user) then c.previewForBuyerAt else c.previewForSellerAt;
            (own.Some? ==> t == own) && (own.None? ==> t == c.lastMessageAt)
  {
    var own := if ViewsAsBuyer(c, user) then c.previewForBuyerAt else c.previewForSellerAt;
    if own.Some? then own else c.lastMessageAt
  }

  /** The unread badge: absent unless `unread_count || 0` is positive. */
  function UnreadBadge(c: Conversation): (b: Option<string>)
    ensures b.Some? <==> c.unreadCount.Some? && c.unreadCount.value > 0
    ensures b.Some? ==> ParseInt(b.value) == Some(if c.unreadCount.value > 9 then 9 else c.unreadCount.value)
  {
    if c.unreadCount.Some? && c.unreadCount.value > 0 then
      BadgeReadsCapped(c.unreadCount.value);
      Some(BadgeText(c.unreadCount.value))
    else None
  }

  /** handleOpenConversation: the messages once marked read, and the route
      navigated to afterwards. */
  function OpenConversation(msgs: seq<Message>, convId: string, user: string): (r: (seq<Message>, string))
    ensures r.0 == MarkAsRead(msgs, convId, user)
    ensures r.1 == "/chat/" + convId
  {
    (MarkAsRead(msgs, convId, user), "/chat/" + convId)
  }

  // ---------------------------------------------------------------- ChatRoom names

  /** The chat room's header name: the viewer is the seller when
      `user.id === seller_id`. */
  function RoomName(c: Conversation, user: string): (s: string)
    ensures s != ""
  {
    if user == c.sellerId then OrElse(c.buyerName, "Client")
    else OrElse(c.sellerStoreName, OrElse(c.sellerFullName, "Boutique"))
  }

  /** The avatar letter: the upper-cased first character of the name. */
  function AvatarInitial(name: string): (s: string)
    requires name != ""
    ensures |s| == 1 && s[0] == UpperChar(name[0])
  {
    Upper(name[..1])
  }

  /** The room and the list decide the viewer's side differently (seller by
      id, buyer by id), yet show the same name whenever the viewer is exactly
      one of the two parties. */
  lemma NamesAgree(c: Conversation, user: string)
    requires Involves(c, user) && !(c.buyerId == user && c.sellerId == user)
    ensures RoomName(c, user) == ListName(c, user)
  {
  }

  // ---------------------------------------------------------------- useMessages

  function CreatedKey(m: Message): real {
    m.createdAt as real
  }

  predicate HasId(s: seq<Message>, id: string) {
    exists i :: 0 <= i < |s| && s[i].id == id
  }

  /** The message list fetched for a conversation: empty without an id. */
  function FetchMessages(convId: Option<string>, rows: seq<Message>): (r: seq<Message>)
    ensures convId.None? ==> r == []
    ensures convId.Some? ==> r == Filter(rows, (m: Message) => m.conversationId == convId.value)
  {
    if convId.None? then [] else Filter(rows, (m: Message) => m.conversationId == convId.value)
  }

  /** The realtime handler's cache update: the first message when nothing is
      cached, the cache itself when the message is already there, otherwise
      the cache with the message added, sorted by creation time. */
  function Incoming(cache: Option<seq<Message>>, m: Message): (r: seq<Message>)
    ensures HasId(r, m.id)
    ensures cache.None? ==> r == [m]
    ensures cache.Some? && HasId(cache.value, m.id) ==> r == cache.value
    ensures cache.Some? && !HasId(cache.value, m.id) ==>
              multiset(r) == multiset(cache.value) + multiset{m} && Sorted(r, CreatedKey, false)
  {
    if cache.None? then
      assert [m][0].id == m.id;
      [m]
    else if HasId(cache.value, m.id) then cache.value
    else
      var r := SortBy(cache.value + [m], CreatedKey, false);
      assert m in multiset(r);
      r
  }

  /** Receiving the same message twice has the effect of receiving it once. */
  lemma IncomingIdempotent(cache: Option<seq<Message>>, m: Message)
    ensures Incoming(Some(Incoming(cache, m)), m) == Incoming(cache, m)
  {
  }

  /** A message newer than everything cached, arriving at a list in time
      order, is simply appended. */
  lemma IncomingNewestAppends(cache: seq<Message>, m: Message)
    requires Sorted(cache, CreatedKey, false)
    requires !HasId(cache, m.id)
    requires forall i :: 0 <= i < |cache| ==> cache[i].createdAt <= m.createdAt
    ensures Incoming(Some(cache), m) == cache + [m]
  {
    var s := cache + [m];
    assert Sorted(s, CreatedKey, false);
    SortBySorted(s, CreatedKey, false);
  }

  // ---------------------------------------------------------------- useChatActions

  /** What a send asks for. */
  datatype SendRequest = SendRequest(
    content: string,
    senderId: string,
    media: Option<(string, MediaKind)>,
    stickerId: Option<string>,
    orderId: Option<string>)

  /** The placeholder message shown while a send is in flight, with id
      `temp-<now>`. The conversation id is "" when there is none. */
  function Optimistic(convId: Option<string>, req: SendRequest, now: int): (m: Message)
    ensures StartsWith(m.id, "temp-")
    ensures m.senderId == req.senderId && m.content == req.content
    ensures m.mediaUrl.Some? <==> req.media.Some?
    ensures req.media.Some? ==> m.mediaUrl == Some(req.media.value.0) && m.mediaType == Some(req.media.value.1)
    ensures m.stickerId == req.stickerId && m.orderId == req.orderId
  {
    Message("temp-" + IntToString(now), convId.GetOr(""), req.senderId, req.content,
            if req.media.Some? then Some(req.media.value.0) else None,
            if req.media.Some? then Some(req.media.value.1) else None,
            req.stickerId, req.orderId, false, now)
  }

  /** The cache around one send: `shown` while the request is in flight
      (`onMutate`), `settled` once it has failed or succeeded (`onError`).
      The request fails without a conversation id or when the server
      reports an error. */
  datatype SendTrace = SendTrace(shown: Option<seq<Message>>, settled: Option<seq<Message>>, failed: bool)

  function Send(cache: Option<seq<Message>>, convId: Option<string>, req: SendRequest,
                now: int, serverError: bool): (t: SendTrace)
    ensures t.failed <==> convId.None? || serverError
    ensures cache.None? ==> t.shown.None?
    ensures cache.Some? ==> t.shown == Some(cache.value + [Optimistic(convId, req, now)])
    ensures t.failed ==> t.settled == cache
    ensures !t.failed ==> t.settled == t.shown
  {
    var shown := if cache.Some? then Some(cache.value + [Optimistic(convId, req, now)]) else None;
    var failed := convId.None? || serverError;
    SendTrace(shown, if failed then cache else shown, failed)
  }

  /** markAsRead through the hook: nothing happens without a conversation. */
  function MarkConversationRead(msgs: seq<Message>, convId: Option<string>, user: string): (r: seq<Message>)
    ensures convId.None? ==> r == msgs
    ensures convId.Some? ==> r == MarkAsRead(msgs, convId.value, user)
  {
    if convId.None? then msgs else MarkAsRead(msgs, convId.value, user)
  }

  /** A failed send leaves the cache as it was, and a successful one keeps
      exactly one new message after the cached ones. */
  lemma SendRollsBack(cache: seq<Message>, convId: Option<string>, req: SendRequest, now: int, serverError: bool)
    ensures var t := Send(Some(cache), convId, req, now, serverError);
            && (t.failed ==> t.settled == Some(cache))
            && (!t.failed ==> |t.settled.value| == |cache| + 1 && t.settled.value[..|cache|] == cache)
  {
    var t := Send(Some(cache), convId, req, now, serverError);
    if !t.failed {
      assert t.settled.value[..|cache|] == cache;
    }
  }

  // ---------------------------------------------------------------- ChatRoom composer

  /** A chosen attachment: its type starts with "video/" or not. */
  datatype Attachment = Attachment(name: string, mimeType: string)

  function KindOf(a: Attachment): MediaKind {
    if StartsWith(a.mimeType, "video/") then Video else Image
  }

  /** What pressing "send" does. The composer is cleared in every case but
      the first. */
  datatype Compose = NothingToSend | UploadFailed | Sends(req: SendRequest)

  /** handleSendMessage. `override` is `contentOverride`, `typed` the text
      box, `file` the attachment; `upload` is the upload's outcome when there
      is a file. */
  function ComposeSend(override: Option<string>, typed: string, file: Option<Attachment>,
                       convId: Option<string>, user: Option<string>, upload: Result<string>): (r: Compose)
    ensures r == NothingToSend <==>
              (override.None? && Blank(typed) && file.None?) || convId.None? || user.None?
    ensures r.Sends? ==> r.req.content != "" && r.req.senderId == user.value
    ensures r.Sends? && override.None? && !Blank(typed) ==> r.req.content == Trim(typed)
    ensures r.Sends? && override.Some? && override.value != "" ==> r.req.content == override.value
    ensures r == UploadFailed <==> r != NothingToSend && file.Some? && upload.Err?
    ensures r.Sends? ==> (r.req.media.Some? <==> file.Some?)
    ensures r.Sends? && file.Some? ==> r.req.media == Some((upload.value, KindOf(file.value)))
  {
    var content := if override.Some? then override.value else Trim(typed);
    if content == "" && file.None? && override.None? then NothingToSend
    else if convId.None? || user.None? then NothingToSend
    else
      var finalContent := if content == "" then " " else content;
      if file.Some? && upload.Err? then UploadFailed
      else
        var media := if file.Some? then Some((upload.value, KindOf(file.value))) else None;
        Sends(SendRequest(finalContent, user.value, media, None, None))
  }

  /** Sending what was typed: the text sent trims to the text typed. */
  lemma SentTextTrimsToTyped(typed: string, convId: string, user: string)
    requires !Blank(typed)
    ensures var r := ComposeSend(None, typed, None, Some(convId), Some(user), Err(""));
            r.Sends? && Trim(r.req.content) == Trim(typed)
  {
    TrimIdempotent(typed);
  }

  // ---------------------------------------------------------------- offers

  /** The offer form: `price` as `parseFloat` reads it (`None` is NaN),
      quantity and validity as typed. */
  datatype OfferForm = OfferForm(price: Option<real>, quantity: string, notes: string,
                                 validityDays: int, shipping: string)

  /** What is written for an offer. A `None` amount or quantity is NaN. */
  datatype Offer = Offer(amount: Option<real>, quantity: Option<int>, notes: string,
                         expiresAt: int, shipping: string)

  /** Creating an offer in the conversation, or updating the one being edited. */
  datatype OfferWrite = CreateOffer(buyer: string, seller: string, product: string,
                                    affiliate: Option<string>, offer: Offer)
                      | UpdateOffer(orderId: string, offer: Offer)

  /** `parseFloat(price) * parseInt(quantity)`. */
  function OfferAmount(price: Option<real>, quantity: Option<int>): (a: Option<real>)
    ensures a.Some? <==> price.Some? && quantity.Some?
    ensures a.Some? ==> a.value == price.value * quantity.value as real
  {
    if price.Some? && quantity.Some? then Some(price.value * quantity.value as real) else None
  }

  /** handleCreateOrder: the offer expires `validity` days from now. */
  function OfferOf(c: Conversation, f: OfferForm, now: int, editing: Option<string>): (w: OfferWrite)
    ensures w.offer.amount == OfferAmount(f.price, ParseInt(f.quantity))
    ensures w.offer.quantity == ParseInt(f.quantity)
    ensures w.offer.expiresAt - now == f.validityDays * Day
    ensures w.UpdateOffer? <==> editing.Some?
    ensures w.CreateOffer? ==> w.buyer == c.buyerId && w.seller == c.sellerId
                               && w.product == c.productId && w.affiliate == c.affiliateId
  {
    var q := ParseInt(f.quantity);
    var offer := Offer(OfferAmount(f.price, q), q, f.notes, now + f.validityDays * Day, f.shipping);
    if editing.Some? then UpdateOffer(editing.value, offer)
    else CreateOffer(c.buyerId, c.sellerId, c.productId, c.affiliateId, offer)
  }

  /** "Modifier l'offre": the form pre-filled from the order, with the unit
      price `(amount || 0) / (quantity || 1)`, the quantity `quantity || 1`,
      seven days' validity and the shipping delay or "7 jours". */
  function EditForm(o: Order): (f: OfferForm)
    ensures f.validityDays == 7
  {
    OfferForm(Some(o.amount / OrOne(o.quantity) as real), IntToString(OrOne(o.quantity)),
              o.notes.GetOr(""), 7, OrElse(o.shippingTimeline, "7 jours"))
  }

  /** Saving the pre-filled form unchanged rewrites the same offer: the same
      amount, quantity (1 for a missing one), notes and shipping delay. */
  lemma EditRoundTrip(c: Conversation, o: Order, now: int)
    ensures var w := OfferOf(c, EditForm(o), now, Some(o.id));
            && w == UpdateOffer(o.id, w.offer)
            && w.offer.amount == Some(o.amount)
            && w.offer.quantity == Some(OrOne(o.quantity))
            && w.offer.notes == o.notes.GetOr("")
            && (Truthy(o.shippingTimeline) ==> w.offer.shipping == o.shippingTimeline.value)
  {
    var f := EditForm(o);
    var q := OrOne(o.quantity);
    assert f.quantity == IntToString(q) && f.price == Some(o.amount / q as real);
    ParseIntRoundTrip(q, "");
    assert IntToString(q) + "" == IntToString(q);
    UnitTimesQuantity(o.amount, q);
  }

  /** Splitting an amount into a unit price and multiplying back is exact. */
  lemma UnitTimesQuantity(amount: real, q: int)
    requires q != 0
    ensures OfferAmount(Some(amount / q as real), Some(q)) == Some(amount)
  {
    var r := q as real;
    var u := amount / r;
    assert u * r == amount;
    assert OfferAmount(Some(u), Some(q)).value == u * r;
  }

  // ---------------------------------------------------------------- deal cards

  const Hour: int := 3600000

  /** The deadline of an offer: its expiry, else a week after the message. */
  function Deadline(o: Order, sentAt: int): int {
    o.expiresAt.GetOr(sentAt + 7 * Day)
  }

  /** The badge on a deal card. */
  datatype Countdown = ExpiredTag | DaysLeft(days: int) | HoursLeft(hours: int) | UnderAnHour

  function CountdownText(c: Countdown): string {
    match c
    case ExpiredTag => "EXPIR\U{00C9}"
    case DaysLeft(d) => IntToString(d) + "j restant" + (if d > 1 then "s" else "")
    case HoursLeft(h) => IntToString(h) + "h restante" + (if h > 1 then "s" else "")
    case UnderAnHour => "Moins d'une heure"
  }

  /** The countdown at time `now`: expired after the deadline; otherwise
      whole days left, else whole hours left, else under an hour. Before the
      deadline the difference is not negative, so JavaScript's `%` and
      `Math.floor` agree with Dafny's `%` and `/` here. */
  function CountdownAt(deadline: int, now: int): (c: Countdown)
    ensures c == ExpiredTag <==> now > deadline
    ensures c.DaysLeft? ==> c.days >= 1 && c.days * Day <= deadline - now < (c.days + 1) * Day
    ensures c.HoursLeft? ==> 1 <= c.hours < 24 && c.hours * Hour <= deadline - now < (c.hours + 1) * Hour
    ensures c == UnderAnHour ==> 0 <= deadline - now < Hour
  {
    var diff := deadline - now;
    if now > deadline then ExpiredTag
    else
      var days := diff / Day;
      var hours := (diff % Day) / Hour;
      if days > 0 then DaysLeft(days)
      else if hours > 0 then HoursLeft(hours)
      else UnderAnHour
  }

  /** "Payer Maintenant": a pending, unexpired offer from the other party. */
  predicate PayShown(o: Order, sentAt: int, now: int, own: bool) {
    now <= Deadline(o, sentAt) && o.status == Pending && !own
  }

  /** "Modifier l'offre": the viewer's own pending offer, expired or not. */
  predicate EditShown(o: Order, own: bool) {
    own && o.status == Pending
  }

  /** A deal card never offers both buttons, and a paid or expired offer
      can no longer be paid. */
  lemma DealButtons(o: Order, sentAt: int, now: int, own: bool)
    ensures !(PayShown(o, sentAt, now, own) && EditShown(o, own))
    ensures PayShown(o, sentAt, now, own) ==> CountdownAt(Deadline(o, sentAt), now) != ExpiredTag
    ensures o.status != Pending ==> !PayShown(o, sentAt, now, own) && !EditShown(o, own)
  {
  }
}

/** The messaging handlers: sending a message, translated when the two users
    prefer different languages, and reading one page of a two-user
    conversation ordered by time. */
module Chat {

  import opened Common

  /** A row of `messages`; `id` and `timestamp` are assigned by the database. */
  datatype Message = Message(
    id: int,
    senderId: string,
    receiverId: string,
    message: string,
    translatedMessage: Option<string>,
    timestamp: int)

  const InvalidConversationId := HttpError(400, "Invalid conversation_id")
  const FetchFailed := HttpError(500, "Failed to fetch messages")
  const SendFailed := HttpError(500, "Failed to send message")

  // ---------------------------------------------------------------------------
  // Conversation ids: Python's `str.split(sep)`
  // ---------------------------------------------------------------------------

  /** `sep.join(parts)` */
  function Join(parts: seq<string>, sep: char): string
    requires |parts| >= 1
  {
    if |parts| == 1 then parts[0] else parts[0] + [sep] + Join(parts[1..], sep)
  }

  /** `s.split(sep)`: the pieces between separators, empty pieces included, so
      there is always one piece more than there are separators. */
  function Split(s: string, sep: char): (parts: seq<string>)
    ensures |parts| >= 1
    ensures forall i :: 0 <= i < |parts| ==> sep !in parts[i]
    ensures Join(parts, sep) == s
  {
    if s == [] then [""]
    else
      var rest := Split(s[1..], sep);
      if s[0] == sep then [""] + rest
      else [[s[0]] + rest[0]] + rest[1..]
  }

  function Occurrences(s: string, c: char): nat
  {
    if s == [] then 0 else (if s[0] == c then 1 else 0) + Occurrences(s[1..], c)
  }

  /** `len(s.split(sep))` is one more than the number of separators in `s`. */
  lemma {:induction false} SplitLength(s: string, sep: char)
    ensures |Split(s, sep)| == Occurrences(s, sep) + 1
  {
    if s != [] {
      SplitLength(s[1..], sep);
    }
  }

  lemma {:induction false} SplitWithoutSeparator(p: string, sep: char)
    requires sep !in p
    ensures Split(p, sep) == [p]
  {
    if p != [] {
      SplitWithoutSeparator(p[1..], sep);
    }
  }

  lemma {:induction false} SplitAfterPiece(p: string, t: string, sep: char)
    requires sep !in p
    ensures Split(p + [sep] + t, sep) == [p] + Split(t, sep)
  {
    if p == [] {
      assert p + [sep] + t == [sep] + t;
      assert ([sep] + t)[1..] == t;
    } else {
      assert (p + [sep] + t)[1..] == p[1..] + [sep] + t;
      SplitAfterPiece(p[1..], t, sep);
      assert [p[0]] + p[1..] == p;
    }
  }

  /** Splitting undoes joining pieces that contain no separator. */
  lemma {:induction false} SplitJoin(parts: seq<string>, sep: char)
    requires |parts| >= 1
    requires forall i :: 0 <= i < |parts| ==> sep !in parts[i]
    ensures Split(Join(parts, sep), sep) == parts
  {
    if |parts| == 1 {
      SplitWithoutSeparator(parts[0], sep);
    } else {
      SplitJoin(parts[1..], sep);
      SplitAfterPiece(parts[0], Join(parts[1..], sep), sep);
      assert [parts[0]] + parts[1..] == parts;
    }
  }

  /** The conversation id `"a_b"` of two ids without underscores names exactly
      `a` and `b`; an id with any other number of underscores (so `"a__b"`
      too) does not name two users. */
  lemma ConversationIdParts(a: string, b: string, conversationId: string)
    requires '_' !in a && '_' !in b
    ensures Split(a + "_" + b, '_') == [a, b]
    ensures |Split(conversationId, '_')| == 2 <==> Occurrences(conversationId, '_') == 1
  {
    SplitJoin([a, b], '_');
    SplitLength(conversationId, '_');
  }

  // ---------------------------------------------------------------------------
  // Reading a conversation
  // ---------------------------------------------------------------------------

  /** `m` was sent from `a` to `b` or from `b` to `a`. */
  predicate InConversation(m: Message, a: string, b: string)
  {
    (m.senderId == a && m.receiverId == b) || (m.senderId == b && m.receiverId == a)
  }

  /** The rows matching the `or_` filter for the two users, in table order. */
  function Between(table: seq<Message>, a: string, b: string): (r: seq<Message>)
    ensures forall m :: m in r <==> m in table && InConversation(m, a, b)
  {
    if table == [] then []
    else (if InConversation(table[0], a, b) then [table[0]] else []) + Between(table[1..], a, b)
  }

  predicate SortedByTimestamp(s: seq<Message>)
  {
    forall i, j :: 0 <= i < j < |s| ==> s[i].timestamp <= s[j].timestamp
  }

  /** `m` placed before the first message of `s` that is not older than it. */
  function InsertByTimestamp(m: Message, s: seq<Message>): (r: seq<Message>)
    ensures multiset(r) == multiset(s) + multiset{m}
  {
    if s == [] || m.timestamp <= s[0].timestamp then [m] + s
    else
      assert s == [s[0]] + s[1..];
      [s[0]] + InsertByTimestamp(m, s[1..])
  }

  /** Inserting into a sorted sequence keeps it sorted. */
  lemma {:induction false} InsertKeepsSorted(m: Message, s: seq<Message>)
    requires SortedByTimestamp(s)
    ensures SortedByTimestamp(InsertByTimestamp(m, s))
  {
    if s == [] || m.timestamp <= s[0].timestamp {
      SortedCons(m, s);
    } else {
      var tail := s[1..];
      assert SortedByTimestamp(tail) by {
        forall i, j | 0 <= i < j < |tail| ensures tail[i].timestamp <= tail[j].timestamp {
          assert tail[i] == s[i + 1] && tail[j] == s[j + 1];
        }
      }
      InsertKeepsSorted(m, tail);
      var rest := InsertByTimestamp(m, tail);
      forall y | y in rest ensures s[0].timestamp <= y.timestamp {
        assert y in multiset(tail) + multiset{m};
        if y != m {
          var k :| 0 <= k < |tail| && tail[k] == y;
          assert s[k + 1] == y;
        }
      }
      SortedCons(s[0], rest);
    }
  }

  lemma SortedCons(x: Message, t: seq<Message>)
    requires SortedByTimestamp(t)
    requires forall y :: y in t ==> x.timestamp <= y.timestamp
    ensures SortedByTimestamp([x] + t)
  {
  }

  /** `.order('timestamp', desc=False)`: the same messages, oldest first;
      messages with equal timestamps keep their table order. */
  function SortByTimestamp(s: seq<Message>): (r: seq<Message>)
    ensures SortedByTimestamp(r)
    ensures multiset(r) == multiset(s)
  {
    if s == [] then []
    else
      assert s == [s[0]] + s[1..];
      InsertKeepsSorted(s[0], SortByTimestamp(s[1..]));
      InsertByTimestamp(s[0], SortByTimestamp(s[1..]))
  }

  /** All messages between `a` and `b`, oldest first. */
  function Conversation(table: seq<Message>, a: string, b: string): seq<Message>
  {
    SortByTimestamp(Between(table, a, b))
  }

  /** A conversation holds every message between the two users and nothing
      else, whichever of the two is named first, oldest first. */
  lemma ConversationContents(table: seq<Message>, a: string, b: string, m: Message)
    ensures m in Conversation(table, a, b) <==> m in table && InConversation(m, a, b)
    ensures Conversation(table, a, b) == Conversation(table, b, a)
    ensures SortedByTimestamp(Conversation(table, a, b))
  {
    assert m in Conversation(table, a, b) <==> m in multiset(Between(table, a, b));
    BetweenSymmetric(table, a, b);
  }

  lemma {:induction false} BetweenSymmetric(table: seq<Message>, a: string, b: string)
    ensures Between(table, a, b) == Between(table, b, a)
  {
    if table != [] {
      BetweenSymmetric(table[1..], a, b);
    }
  }

  /** PostgREST's `range(from, to)`: positions `from` through `to`, both
      included, cut short at the end of `s`. */
  function Range(s: seq<Message>, from: nat, to: int): (r: seq<Message>)
    ensures from <= to ==> |r| <= to - from + 1
    ensures to < from ==> r == []
    ensures forall i :: 0 <= i < |r| ==> from + i < |s| && r[i] == s[from + i]
    ensures from <= to && to < |s| ==> |r| == to - from + 1
    ensures from <= to && from < |s| ==> |r| == (if to < |s| then to + 1 else |s|) - from
    ensures from >= |s| ==> r == []
  {
    if to < from || from >= |s| then []
    else s[from .. if to + 1 < |s| then to + 1 else |s|]
  }

  /** Consecutive pages neither overlap nor leave a gap. */
  lemma RangesTile(s: seq<Message>, offset: nat, limit: nat)
    requires limit >= 1
    ensures Range(s, offset, offset + limit - 1) + Range(s, offset + limit, offset + 2 * limit - 1)
         == Range(s, offset, offset + 2 * limit - 1)
  {
  }

  /** `get_messages`: split the conversation id, check that the caller is one
      of its two users, and return the `[offset, offset + limit - 1]` page of
      their messages, oldest first; `fetchFails` is the outcome of the query. */
  function GetMessages(
    table: seq<Message>, caller: Claims, conversationId: string, limit: int, offset: int, fetchFails: bool)
    : (r: Result<seq<Message>>)
    requires 1 <= limit <= 100 && 0 <= offset
    ensures |Split(conversationId, '_')| != 2 ==> r == Err(InvalidConversationId)
    ensures |Split(conversationId, '_')| == 2 && caller.sub !in Split(conversationId, '_') ==> r == Err(Forbidden)
    ensures |Split(conversationId, '_')| == 2 && caller.sub in Split(conversationId, '_') && fetchFails ==>
      r == Err(FetchFailed)
    ensures r.Ok? <==> |Split(conversationId, '_')| == 2 && caller.sub in Split(conversationId, '_') && !fetchFails
    ensures r.Ok? ==> |r.value| <= limit && SortedByTimestamp(r.value)
    ensures r.Ok? ==>
      var parts := Split(conversationId, '_');
      |parts| == 2 && caller.sub in parts &&
      r.value == Range(Conversation(table, parts[0], parts[1]), offset, offset + limit - 1) &&
      forall m :: m in r.value ==> m in table && InConversation(m, parts[0], parts[1])
  {
    var userIds := Split(conversationId, '_');
    if |userIds| != 2 then Err(InvalidConversationId)
    else if caller.sub !in userIds then Err(Forbidden)
    else if fetchFails then Err(FetchFailed)
    else
      var conversation := Conversation(table, userIds[0], userIds[1]);
      var page := Range(conversation, offset, offset + limit - 1);
      assert forall m :: m in page ==> m in conversation;
      assert forall m :: m in conversation ==> m in multiset(Between(table, userIds[0], userIds[1]));
      Ok(page)
  }

  // ---------------------------------------------------------------------------
  // Sending a message
  // ---------------------------------------------------------------------------

  /** The `preferred_language` value of a profile row: absent, SQL null, or a tag. */
  datatype LanguageField = Missing | Null | Tag(code: string)

  datatype Profile = Profile(preferredLanguage: LanguageField)

  /** A user's preferred language: `"en"` when there is no profile row or the
      row lacks the column, and Python's `None` when the column is null. */
  function PreferredLanguage(profile: Option<Profile>): (lang: Option<string>)
    ensures profile.None? ==> lang == Some("en")
    ensures profile.Some? && profile.value.preferredLanguage.Missing? ==> lang == Some("en")
    ensures lang.None? <==> profile.Some? && profile.value.preferredLanguage.Null?
    ensures profile.Some? && profile.value.preferredLanguage.Tag? ==>
      lang == Some(profile.value.preferredLanguage.code)
  {
    match profile
    case None => Some("en")
    case Some(p) =>
      match p.preferredLanguage
      case Missing => Some("en")
      case Null => None
      case Tag(code) => Some(code)
  }

  function LookupProfile(profiles: map<string, Profile>, id: string): Option<Profile>
  {
    if id in profiles then Some(profiles[id]) else None
  }

  /** The parameters `translate_text` posts to the translation service. */
  datatype TranslationRequest = TranslationRequest(q: string, target: Option<string>, source: Option<string>)

  /** `translate_text`'s parameters: the source language is sent only when
      it is truthy (not `None` and not empty). */
  function TranslationRequestFor(text: string, target: Option<string>, source: Option<string>)
    : (req: TranslationRequest)
    ensures req.q == text && req.target == target
    ensures req.source.Some? <==> source.Some? && source.value != ""
    ensures req.source.Some? ==> req.source == source
  {
    TranslationRequest(text, target, if source.Some? && source.value != "" then source else None)
  }

  /** A row handed to the insert; the database adds `id` and `timestamp`. */
  datatype NewMessage = NewMessage(
    senderId: string, receiverId: string, message: string, translatedMessage: Option<string>)

  /** The reply of `send_message` and the row it inserted, if any. */
  datatype SendOutcome = SendOutcome(response: Result<string>, inserted: Option<NewMessage>)

  /** `send_message`: look up both preferred languages, translate into the
      receiver's language when they differ (the service `translate` answers
      `None` on failure), and insert the row; `insertFails` is the outcome of
      the insert. */
  function SendMessage(
    profiles: map<string, Profile>, caller: Claims, receiverId: string, text: string,
    translate: TranslationRequest -> Option<string>, insertFails: bool)
    : (out: SendOutcome)
    ensures out.response == Ok("Message sent") <==> !insertFails
    ensures insertFails ==> out.response == Err(SendFailed) && out.inserted.None?
    ensures !insertFails ==>
      var senderLang := PreferredLanguage(LookupProfile(profiles, caller.sub));
      var receiverLang := PreferredLanguage(LookupProfile(profiles, receiverId));
      out.inserted.Some? &&
      out.inserted.value.senderId == caller.sub &&
      out.inserted.value.receiverId == receiverId &&
      out.inserted.value.message == text &&
      (senderLang == receiverLang ==> out.inserted.value.translatedMessage.None?) &&
      (senderLang != receiverLang ==>
        out.inserted.value.translatedMessage == translate(TranslationRequestFor(text, receiverLang, senderLang)))
  {
    var senderId := caller.sub;
    var senderLang := PreferredLanguage(LookupProfile(profiles, senderId));
    var receiverLang := PreferredLanguage(LookupProfile(profiles, receiverId));
    var translated :=
      if senderLang != receiverLang then translate(TranslationRequestFor(text, receiverLang, senderLang))
      else None;
    if insertFails then SendOutcome(Err(SendFailed), None)
    else SendOutcome(Ok("Message sent"), Some(NewMessage(senderId, receiverId, text, translated)))
  }

  /** When both users prefer the same language the translation service is
      never consulted: any two services give the same outcome. */
  lemma SameLanguageNeverTranslates(
    profiles: map<string, Profile>, caller: Claims, receiverId: string, text: string,
    translate: TranslationRequest -> Option<string>, other: TranslationRequest -> Option<string>, insertFails: bool)
    requires PreferredLanguage(LookupProfile(profiles, caller.sub)) == PreferredLanguage(LookupProfile(profiles, receiverId))
    ensures SendMessage(profiles, caller, receiverId, text, translate, insertFails)
         == SendMessage(profiles, caller, receiverId, text, other, insertFails)
  {
  }

  /** A failed translation is not fatal: the original text is still stored,
      untranslated, and the reply is still "Message sent". */
  lemma FailedTranslationStillSends(
    profiles: map<string, Profile>, caller: Claims, receiverId: string, text: string,
    translate: TranslationRequest -> Option<string>)
    requires
      var senderLang := PreferredLanguage(LookupProfile(profiles, caller.sub));
      var receiverLang := PreferredLanguage(LookupProfile(profiles, receiverId));
      translate(TranslationRequestFor(text, receiverLang, senderLang)).None?
    ensures SendMessage(profiles, caller, receiverId, text, translate, false)
         == SendOutcome(Ok("Message sent"), Some(NewMessage(caller.sub, receiverId, text, None)))
  {
  }

  // ---------------------------------------------------------------------------
  // Sending, then reading
  // ---------------------------------------------------------------------------

  /** The row the database stores for an inserted message. */
  function Stored(row: NewMessage, id: int, timestamp: int): Message
  {
    Message(id, row.senderId, row.receiverId, row.message, row.translatedMessage, timestamp)
  }

  lemma {:induction false} BetweenAppend(table: seq<Message>, m: Message, a: string, b: string)
    requires InConversation(m, a, b)
    ensures Between(table + [m], a, b) == Between(table, a, b) + [m]
  {
    if table == [] {
      assert [] + [m] == [m];
    } else {
      assert (table + [m])[1..] == table[1..] + [m];
      BetweenAppend(table[1..], m, a, b);
    }
  }

  lemma {:induction false} InsertBeforeNewest(x: Message, t: seq<Message>, m: Message)
    requires x.timestamp <= m.timestamp
    requires forall y :: y in t ==> y.timestamp <= m.timestamp
    ensures InsertByTimestamp(x, t + [m]) == InsertByTimestamp(x, t) + [m]
  {
    var u := t + [m];
    if t == [] {
      assert u == [m];
    } else if x.timestamp <= t[0].timestamp {
      assert u[0] == t[0];
      assert [x] + u == ([x] + t) + [m];
    } else {
      assert u[0] == t[0] && u[1..] == t[1..] + [m];
      InsertBeforeNewest(x, t[1..], m);
      assert [t[0]] + (InsertByTimestamp(x, t[1..]) + [m]) == ([t[0]] + InsertByTimestamp(x, t[1..])) + [m];
    }
  }

  /** Sorting a table whose last message is the newest keeps that message last. */
  lemma {:induction false} SortWithNewestLast(s: seq<Message>, m: Message)
    requires forall y :: y in s ==> y.timestamp <= m.timestamp
    ensures SortByTimestamp(s + [m]) == SortByTimestamp(s) + [m]
  {
    if s == [] {
      assert [] + [m] == [m];
    } else {
      assert (s + [m])[1..] == s[1..] + [m];
      SortWithNewestLast(s[1..], m);
      var t := SortByTimestamp(s[1..]);
      forall y | y in t ensures y.timestamp <= m.timestamp {
        assert y in multiset(s[1..]);
      }
      InsertBeforeNewest(s[0], t, m);
    }
  }

  /** A message appended with the newest timestamp becomes the last message
      of its conversation, after all earlier ones. */
  lemma NewestMessageIsLast(table: seq<Message>, m: Message, a: string, b: string)
    requires InConversation(m, a, b)
    requires forall y :: y in table ==> y.timestamp <= m.timestamp
    ensures Conversation(table + [m], a, b) == Conversation(table, a, b) + [m]
  {
    BetweenAppend(table, m, a, b);
    SortWithNewestLast(Between(table, a, b), m);
  }

  /** A message sent successfully, once stored with a timestamp no earlier
      than any other, is what the receiver reads from the conversation id
      `"sender_receiver"` at the offset just past the earlier messages. */
  lemma SentMessageReachesReceiver(
    profiles: map<string, Profile>, sender: Claims, receiver: Claims, text: string,
    translate: TranslationRequest -> Option<string>,
    table: seq<Message>, id: int, now: int, limit: int)
    requires '_' !in sender.sub && '_' !in receiver.sub
    requires 1 <= limit <= 100
    requires forall y :: y in table ==> y.timestamp <= now
    ensures
      var out := SendMessage(profiles, sender, receiver.sub, text, translate, false);
      var m := Stored(out.inserted.value, id, now);
      var earlier := |Conversation(table, sender.sub, receiver.sub)|;
      GetMessages(table + [m], receiver, sender.sub + "_" + receiver.sub, limit, earlier, false) == Ok([m])
  {
    var out := SendMessage(profiles, sender, receiver.sub, text, translate, false);
    var m := Stored(out.inserted.value, id, now);
    ConversationIdParts(sender.sub, receiver.sub, sender.sub + "_" + receiver.sub);
    assert InConversation(m, sender.sub, receiver.sub);
    NewestMessageIsLast(table, m, sender.sub, receiver.sub);
    var all := Conversation(table + [m], sender.sub, receiver.sub);
    var earlier := |Conversation(table, sender.sub, receiver.sub)|;
    assert all[earlier] == m;
    assert Range(all, earlier, earlier + limit - 1) == [m];
  }
}

# Order tracking and chat backend: a verified model

This project models the request-handling logic of a small marketplace backend.
The backend has two feature areas.

- **Order tracking.** A buyer or seller lists a user's orders, and each order comes back with its line items attached. A seller moves one of their own orders along the lifecycle `Placed → Accepted → Out for Delivery → Delivered`, one step at a time, and each status entered is timestamped.
- **Chat.** A user sends a direct message. It is machine-translated when the sender and receiver prefer different languages, and a non-200 reply from the translation service is not fatal. A user reads one page of a two-user conversation, oldest message first.

The model has four modules:

- `Common` (`common.dfy`): `Option`, the handler `Result` (a body or an `HttpError` with status code and detail text), and the decoded token `Claims` (`sub`, optional `role`).
- `OrderStatus` (`order_status.dfy`): the status list `ORDER_STATUSES`, Python's `list.index`, and the one-step-forward transition rule.
- `OrderTracking` (`order_tracking.dfy`): the listing handler `get_orders` and the status update `update_order_status`.
  - `get_orders` is a method. It calls `GroupByOrder`, the loop that fills `items_by_order`, and `AttachItems`, the loop that sets each order's `'items'` in place on an array.
  - `update_order_status` is a method over the orders table, held as a map from order id to row. It returns the reply and the table after the write. The current time `now` and the outcome of the database write are parameters.
  - Lemmas follow an order across any series of status requests.
- `Chat` (`chat.dfy`): Python's `str.split`, the conversation-id check, the message filter for the two users, the ordering by timestamp, PostgREST's inclusive `range(from, to)`, the read handler `get_messages`, and the send handler `send_message`.
  - The translation service is a function parameter that returns `None` on failure.
  - A lemma follows a sent message through to the receiver's read.

`backend/main.py` lines 55-112 repeat `backend/order_tracking.py` lines 51-108 line for line. The same goes for `ORDER_STATUSES` (main.py:24 and order_tracking.py:20). One model covers both copies. Rows below cite whichever copy holds the lines a member states.

Four behaviours of the code are easy to assume otherwise. The model keeps each one as the code has it.

- A conversation id's two user ids are not checked to be distinct, nor sorted.
- A profile whose `preferred_language` column holds null yields Python `None`, not `'en'`. `dict.get` applies its default only when the key is absent.
- The translation request leaves out the source language when it is `None` or the empty string.
- The listing handler lets any seller list the orders of any `user_id` whose `seller_id` matches it (`ListingFilter`).

## Model

| member | source | states |
|---|---|---|
| `OrderStatus.IndexOf` | backend/order_tracking.py:96 | `list.index`: the result is a position holding `x`, and no earlier position holds it |
| `OrderStatus.StatusesDistinct` | backend/order_tracking.py:20 | the four statuses are pairwise different |
| `OrderStatus.IndexOfAt` | backend/main.py:24 | each status's index is its position in the list |
| `OrderStatus.Successor` | backend/order_tracking.py:20 | every status except `Delivered` has a next status in the list, different from itself; `Delivered` has none |
| `OrderStatus.LegalIffSuccessor` | backend/order_tracking.py:96-97 | `index(new) == index(current) + 1` holds exactly when `new` is the successor of `current` |
| `OrderStatus.LegalTransitionsEnumerated` | backend/main.py:100-101 | the accepted transitions are exactly Placed→Accepted, Accepted→Out for Delivery and Out for Delivery→Delivered |
| `OrderStatus.LegalTransitionMovesOneForward` | backend/main.py:98-101 | an accepted transition moves forward, is not a self-transition, never leaves `Delivered` and never enters `Placed` |
| `OrderTracking.ListingFilter` | backend/main.py:58-67 | 403 "Forbidden" iff the caller is neither `user_id` nor a seller; otherwise 403 "Invalid role" iff the role is neither buyer nor seller; a buyer filters on `buyer_id` only when listing their own orders; any seller filters on `seller_id` |
| `OrderTracking.OrdersWhere` | backend/order_tracking.py:58-61 | the query returns exactly the table rows whose buyer or seller column equals `user_id` |
| `OrderTracking.IdsOf` | backend/order_tracking.py:69 | position `i` of the id list is the id of order `i` |
| `OrderTracking.ItemsWithOrderIn` | backend/order_tracking.py:70 | the `in_` query: the items fetched are exactly the items-table rows whose `order_id` is one of the listed ids |
| `OrderTracking.ItemsOf` | backend/order_tracking.py:71-73 | an order's group of items is never longer than the fetched items |
| `OrderTracking.ItemsOfSound` | backend/main.py:76-77 | every item grouped under an order names that order and was fetched |
| `OrderTracking.ItemsOfComplete` | backend/order_tracking.py:72-73 | every fetched item that names an order is grouped under it |
| `OrderTracking.ItemsOfEmpty` | backend/order_tracking.py:76 | an order's group is `[]` exactly when no fetched item names it |
| `OrderTracking.ItemsOfAppend` | backend/main.py:75-77 | grouping keeps fetch order: the group of a concatenation is the group of the first part followed by the group of the second |
| `OrderTracking.ItemsOfSnoc` | backend/order_tracking.py:73 | appending one item extends its own order's group by that item and leaves every other group as it was |
| `OrderTracking.FetchedItemsOf` | backend/order_tracking.py:69-70 | fetching only items of the listed orders leaves each listed order's group the same as over the whole items table |
| `OrderTracking.GroupStep` | backend/main.py:76-77 | one `setdefault(...).append(item)` step keeps `items_by_order` equal to the grouping of the items seen so far |
| `OrderTracking.GroupByOrder` | backend/order_tracking.py:71-73 | after the loop, `items_by_order.get(id, [])` is the group of order `id` in fetch order for every id, and only ids that occur are keys |
| `OrderTracking.AttachItems` | backend/order_tracking.py:75-76 | after the loop, the orders keep their number and order, and each carries exactly its own group of items |
| `OrderTracking.GetOrders` | backend/order_tracking.py:51-77 | errors exactly as `ListingFilter`; on success the reply is the filtered orders in query order, each with exactly its own items from the items table in table order, or `[]` when none match |
| `OrderTracking.Advanced` | backend/order_tracking.py:99-104 | the written row has status `new_status` and `status_timestamps[new_status] == now`; its keys are the old keys (null read as `{}`) plus `new_status`; every other key keeps its value and every other field is unchanged |
| `OrderTracking.UpdateOrderStatus` | backend/order_tracking.py:79-108 | checks in the source's order: non-seller 403, missing order 404, another seller's order 403, unknown status 400 "Invalid status", illegal transition 400 "Invalid status transition", failed write 500. Success iff all pass; then the reply echoes `order_id` and `new_status` and only that order is rewritten, as `Advanced`. Every rejection leaves the table unchanged. When the caller owns the order and the write succeeds, the new table is the one `Step` gives, so the lifecycle lemmas about `Step` hold of this handler |
| `OrderTracking.AdvancePreservesWellFormed` | backend/main.py:100-104 | a legal update writes a key that was absent, so each status is timestamped at most once, and it keeps status and timestamp keys consistent |
| `OrderTracking.StepPreservesWellFormed` | backend/main.py:98-108 | an accepted or rejected request keeps the order's status among the four and its timestamp keys at or before the current status |
| `OrderTracking.Replay` | backend/order_tracking.py:94-104 | the order after any series of its seller's requests stays well formed |
| `OrderTracking.ReplayOnlyMovesForward` | backend/main.py:96-108 | over any series of requests, the status index never decreases and grows by at most one per request; no timestamp is removed or overwritten |
| `Chat.Split` | backend/chat.py:91 | `str.split('_')`: at least one piece, no piece contains `_`, and joining the pieces with `_` gives back the id |
| `Chat.SplitLength` | backend/chat.py:91-93 | the number of pieces is the number of underscores plus one, empty pieces included |
| `Chat.SplitJoin` | backend/chat.py:90-91 | splitting undoes joining pieces that contain no `_` |
| `Chat.ConversationIdParts` | backend/chat.py:90-93 | `"a_b"` splits into exactly `[a, b]`; an id has two parts iff it has exactly one underscore, so `"a__b"` is refused |
| `Chat.Between` | backend/chat.py:97-98 | the `or_` filter selects exactly the table messages from `a` to `b` or from `b` to `a` |
| `Chat.BetweenSymmetric` | backend/chat.py:98 | the filter is the same whichever user is named first |
| `Chat.InsertByTimestamp` | backend/chat.py:99 | inserting adds exactly the one message |
| `Chat.InsertKeepsSorted` | backend/chat.py:99 | inserting into a timestamp-sorted list keeps it sorted |
| `Chat.SortByTimestamp` | backend/chat.py:99 | `.order('timestamp', desc=False)`: sorted ascending by timestamp, and a permutation of its input |
| `Chat.ConversationContents` | backend/chat.py:96-99 | a conversation holds every message between the two users and nothing else, sorted oldest first, whichever user is named first |
| `Chat.Range` | backend/chat.py:100 | `range(from, to)` returns the consecutive rows from `from` through `to`, cut at the end of the table: exactly `min(to + 1, n) - from` rows when `from < n`, and none when `from` is past the end or `to < from` |
| `Chat.RangesTile` | backend/chat.py:88-100 | consecutive pages `[o, o+l-1]` and `[o+l, o+2l-1]` together are page `[o, o+2l-1]`: no overlap and no gap |
| `Chat.GetMessages` | backend/chat.py:86-104 | 400 unless the id splits into two parts; then 403 unless the caller is one of them; then 500 exactly when the query fails. The reply is `Ok` iff all three checks pass. Then the reply is the inclusive `[offset, offset+limit-1]` page of the two users' messages sorted by timestamp, at most `limit` messages, each from the table and between the two users |
| `Chat.PreferredLanguage` | backend/chat.py:69-70 | a missing profile, or a profile row without the column, gives `'en'`; the result is `None` exactly when the stored language is null; a stored language is used as is |
| `Chat.TranslationRequestFor` | backend/chat.py:44-53 | the request carries the text and target language; it carries the source language exactly when that language is neither `None` nor empty |
| `Chat.SendMessage` | backend/chat.py:61-84 | "Message sent" iff the insert succeeds, else 500 and nothing inserted. The inserted row has the caller as sender, the requested receiver and the original text. `translated_message` is `None` when the languages are equal, and otherwise is the service's answer to `(message, receiver_lang, sender_lang)` |
| `Chat.SameLanguageNeverTranslates` | backend/chat.py:72-74 | with equal languages the outcome is the same for any translation service: translation is never requested |
| `Chat.FailedTranslationStillSends` | backend/chat.py:54-58 | a non-200 translation reply (`None`) still inserts the original text with `translated_message = None` and replies "Message sent" |
| `Chat.BetweenAppend` | backend/chat.py:97-98 | a new message between the two users is appended at the end of their filtered messages |
| `Chat.InsertBeforeNewest` | backend/chat.py:99 | inserting a message no newer than a trailing newest message leaves that message last |
| `Chat.SortWithNewestLast` | backend/chat.py:99 | sorting a table whose last message is the newest keeps that message last |
| `Chat.NewestMessageIsLast` | backend/chat.py:97-99 | a message stored with the newest timestamp becomes the last message of its conversation, after all earlier ones |
| `Chat.SentMessageReachesReceiver` | backend/chat.py:61-104 | a message sent successfully and stored with the newest timestamp is exactly what the receiver reads from `"sender_receiver"` at the offset just past the earlier messages |

## Left out

- JWT decoding in `get_current_user` (order_tracking.py:43-48, chat.py:36-41, main.py:47-52) is a library call. The handlers receive its result as `Claims`, and the 401 path is not modelled. A token without `sub` would raise a `KeyError` in the source; the model always has a `sub`.
- The Supabase client is external storage.
  - Tables are Dafny values: the orders table is a `map` from id to row for the update and a `seq` in query order for the listing; `order_items`, `messages` and `profiles` are a `seq`, a `seq` and a `map`.
  - The `.error` of a write or query is a boolean parameter (`writeFails`, `fetchFails`, `insertFails`).
  - When the status write fails, the table is assumed unchanged.
  - The listing handler does not check errors on its two queries, and neither does the model.
  - `.single()` raising on a missing row is not modelled; the code's own `if not order` / `if sender_profile` paths are.
- The HTTP call in `translate_text` (chat.py:53-58) is network I/O. It is the function parameter `translate`, which returns `None` for a non-200 reply. The API key and the JSON shape of the reply are left out.
- SendMessage: `translate_text` raises, rather than returning `None`, when `requests.post` fails (a connection error, or a hang since no timeout is set) or when a 200 body lacks `data.translations[0].translatedText`. Such an exception escapes `send_message` as a 500 with nothing inserted. The `Option`-valued `translate` parameter cannot express these paths, so the model does not capture them.
- `datetime.utcnow().isoformat()` is a clock. The status update takes `now` as a parameter. Message ids and timestamps are assigned by the database, and are arguments of `Stored` (timestamps as integers).
- `OrderItem.price` is a float that no logic touches.
- FastAPI routing, Pydantic models and their response validation, environment variables, and the SQL schema comments are framework plumbing.
- FastAPI's validation of `limit` (1 to 100) and `offset` (0 or more) runs before the handler. It is the `requires` of `GetMessages`, and the 422 reply is not modelled.
- The read-then-write race on status updates is concurrency.
- UpdateOrderStatus: a stored status outside the four values makes `.index` raise. The model requires that the addressed order's stored status is one of the four, matching the schema default `'Placed'` (order_tracking.py:116).
- SortByTimestamp: PostgreSQL does not fix the order of messages with equal timestamps. The model keeps their table order.
- Range: a page that starts past the last row is empty in the model. PostgREST's reply to such a range header is not modelled.
- The `or_` filter is built by string interpolation. The model selects exactly the two ordered pairs, so ids containing PostgREST filter syntax (`,`, `(`, `)`, `.`) are not modelled.

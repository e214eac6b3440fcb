# WhatsApp knowledge-base bot — a verified model of its core

This project models, in Dafny, the core of a WhatsApp group bot. The bot
stores the group's messages and reactions and answers questions from a
knowledge base of topics, one set per group. The model covers:

- **Storage** (`BaseHandlers`, over the in-memory tables of `Store`):
  - messages, senders, groups and reactions are kept in tables;
  - a sender row, and a group row when the message names a group, is created before the message is written;
  - reactions are upserted on their `(message_id, sender_jid)` key and removed by that key;
  - a reaction that would break one of the reaction table's foreign keys (src/models/reaction.py:22-25) is rejected with nothing stored: its message is not stored, or its sender JID is neither stored nor normalized;
  - every row is stored under its own primary key.
  - a sent text is recorded as a message from the bot.
- **Reaction parsing** (`Reactions.FromWebhook`): the payload checks, in their order, and the split of `"sender in group"`.
- **Knowledge-base answers** (`KnowledgeBaseAnswers`):
  - the scope is the message's group and its related community groups;
  - retrieval filters the topics to that scope, orders them by distance to the embedded question and keeps the first ten;
  - the topic list is formatted, and the generation prompt is assembled from the question, the history and the topics.
- **Knowledge-base status** (`KnowledgeBaseStatus`): the counts, the `no_managed_groups` / `no_topics` / `healthy` / `error` classification, the managed-group list and the orphan warning.
- **Message handling** (`MessageHandling`):
  - the skip sequence for an incoming message;
  - the bot's own-JID test;
  - the gating of bot commands by the admin and the process-wide `allow_participants_interactions` toggle.
- **Phone numbers** (`Phones.PhoneMapper`): the JID-to-phone map, the seen-phone list and the fallback rule for unmapped JIDs.
- **`chat2text`** (`ChatText`): one `[time] @user: text` line per message, joined by newlines.

Python's string operations the code relies on live in `Text`:

- `in`, `find`, `split`, `join`, `strip`, `endswith` and `lower`;
- their specifications are proved there: first occurrence, the split/join round trip, and strip of a blank string.

The JID helpers are abstract functions carried in `Values.Jids` and `Values.BotJid`: `normalize_jid`, `parse_jid(..).user` and `parse_jid(..).is_group()`. Timestamp formatting, the language models, the embedding service and the cosine distance are function parameters. Distances are `real`s.

Where the code and its accompanying security test disagree, the model follows the code:

- src/handler/knowledge_base_answers.py:48-76 applies no group filter when the message has no group;
- `KnowledgeBaseAnswers.RetrieveUnscoped` states that retrieval then ranges over every topic, orphaned ones included;
- SECURITY_TEST_KNOWLEDGE_BASE.py:110-116 expects a `ValueError` here, which the code never raises.

Where the comments and the schema disagree, the model follows the schema. The comment at src/handler/base_handler.py:119-121 says an orphaned reaction is still stored. The foreign key from `reaction.message_id` to `message.message_id` (src/models/reaction.py:22) makes that insert fail. The nested transaction is then rolled back, which also undoes the sender row it created, and the `except` returns `None`. `BaseHandlers.BaseHandler.StoreReaction` states this outcome.

`Reaction.from_webhook` builds the row on the table class `Reaction` (src/models/reaction.py:78-83). A table class runs no field validator when it is constructed, so the `normalize_sender_jid` validator (src/models/reaction.py:36-40) does not apply there. Everywhere else the code validates through the base class first, as in `Sender(**BaseSender(...).model_dump())`. The model therefore keeps the raw sender part as the reaction's sender JID. `store_reaction` looks up the sender under that raw JID. If it is missing, it creates the row under the normalized JID (the `BaseSender` validator, src/models/sender.py:18-21). When the raw JID is not normalized, the insert breaks the foreign key on `sender_jid`, and the reaction is rejected.

## Model

| member | source | states |
|---|---|---|
| Text.BeforeChar | src/utils/phone_mapper.py:24-26 | `s.split(c)[0]` is a prefix of `s` free of `c`; it is shorter than `s` exactly when `c` occurs, and `c` follows it |
| Text.StripEmptyIffBlank | src/handler/__init__.py:86 | `text.strip() == ""` exactly when every character is whitespace |
| Models.NewGroup | src/handler/base_handler.py:81 | a group created for a message holds the JID, is unmanaged and has no community keys |
| ChatText.Lines | src/utils/chat_text.py:10-16 | one line per message, in history order, each `[time] @user: stripped text` |
| ChatText.Chat2Text | src/utils/chat_text.py:7-18 | the loop's result is the lines joined by newlines |
| ChatText.EmptyHistory | src/utils/chat_text.py:7-18 | an empty history renders as the empty string |
| ChatText.OneLinePerMessage | src/utils/chat_text.py:10-18 | when no line holds a newline, splitting the text on newlines gives back exactly one formatted line per message, in order |
| ChatText.EveryLineRendered | src/utils/chat_text.py:16-18 | every message's line occurs in the rendered history |
| ChatText.MissingTextRendersEmpty | src/utils/chat_text.py:15 | a message without text renders with an empty body |
| Phones.PhoneFromJidSpec | src/utils/phone_mapper.py:24-29 | an unmapped JID yields a phone exactly when it contains `@` and does not end in `@lid`; the phone is the text before the first `@` |
| Phones.PhoneMapper.constructor | src/utils/phone_mapper.py:8-12 | a new mapper has no mappings and no seen phones |
| Phones.PhoneMapper.AddMapping | src/utils/phone_mapper.py:14-17 | afterwards `get_phone(jid)` is the phone and the phone is listed once; other JIDs and earlier phones are kept |
| Phones.PhoneMapper.GetPhone | src/utils/phone_mapper.py:19-29 | a mapped JID gives its phone; an unmapped one gives the fallback |
| Phones.PhoneMapper.GetAllPhones | src/utils/phone_mapper.py:31-33 | every mapped phone is among the listed phones |
| Phones.PhoneMapper.Clear | src/utils/phone_mapper.py:35-38 | afterwards no phone is listed and every JID behaves as unmapped |
| Phones.RemapKeepsOldPhone | src/utils/phone_mapper.py:14-17 | remapping a JID replaces its phone while the old phone stays listed |
| Reactions.SenderPartSpec | src/models/reaction.py:73-76 | the sender is all of `from` without `" in "`, else the text before the first one; unpacking fails exactly when a second `" in "` follows |
| Reactions.FromWebhook | src/models/reaction.py:57-83 | the four rejections in their order; then an unpacking failure; a built reaction has no id and takes message id, emoji and timestamp from the payload, with the sender part as it is (not normalized) |
| Reactions.UpsertKeepsValid | src/models/reaction.py:95-112 | an upsert keeps one row per key, each under its own key, with distinct ids |
| Reactions.UpsertEffect | src/models/reaction.py:95-112 | the key's row carries the new emoji and timestamp; an existing row keeps its id; a new key adds one row; other rows are unchanged |
| Reactions.UpsertIdempotent | src/models/reaction.py:106-112 | upserting the same reaction twice leaves the table as one upsert does |
| Reactions.LastReactionWins | src/models/reaction.py:106-112 | a second reaction on the same key replaces emoji and timestamp of the same row |
| Reactions.ReactionTable.Upsert | src/models/reaction.py:86-123 | the table becomes the upserted table, and the returned row is the one under the reaction's key |
| Reactions.ReactionTable.Delete | src/handler/base_handler.py:151-159 | the row under the key is removed, and the result says whether there was one |
| BaseHandlers.WithSenderSpec | src/handler/base_handler.py:65-76 | a stored sender leaves the table unchanged; otherwise one row keyed by the normalized JID (the `BaseSender` validator, src/models/sender.py:18-21) carries the push name and nothing else changes; the JID itself is then a sender exactly when it was one or is normalized |
| BaseHandlers.WithGroupSpec | src/handler/base_handler.py:78-83 | a bare group row is added only for a named group that is absent; existing groups are unchanged |
| BaseHandlers.StoreKeepsLinks | src/handler/base_handler.py:63-87 | after storing, every stored message, the new one included, refers to a stored sender and group |
| BaseHandlers.StoredKeepsValid | src/handler/base_handler.py:57-87 | storing a message keeps every row under its own primary key and every message linked, and loses no sender or message row |
| BaseHandlers.ReactionKeepsValid | src/handler/base_handler.py:103-124 | an accepted reaction keeps the tables valid, and its message and sender are both stored afterwards |
| BaseHandlers.ReactionsStayLinked | src/models/reaction.py:22-25 | reactions stay linked to a stored message and sender while those tables only grow, and an upsert on stored keys keeps them linked |
| BaseHandlers.SentMessage | src/handler/base_handler.py:188-195 | a sent text is recorded with the bot's normalized JID as sender, the recipient as chat, the delivery id or `"unknown"` |
| BaseHandlers.BaseHandler.StoreMessage | src/handler/base_handler.py:57-87 | a message without text is returned and nothing changes; otherwise sender (under its normalized JID), group and message tables are updated in that order and the message is linked; the new tables are `Stored` of the old |
| BaseHandlers.BaseHandler.StorePayload | src/handler/base_handler.py:46-61 | a payload with a reaction returns none, and all tables are as `store_reaction` leaves them; otherwise the parsed message is returned, the tables are `Stored` of the old, and a text-less message changes nothing |
| BaseHandlers.BaseHandler.StoreReaction | src/handler/base_handler.py:89-130 | a reaction is stored exactly when the payload carries one, it parses, its message is stored, and its sender JID is stored or normalized (the foreign keys at src/models/reaction.py:22-25); then only the sender row is added and the reaction upserted; otherwise nothing changes and none is returned |
| BaseHandlers.BaseHandler.RemoveReaction | src/handler/base_handler.py:132-163 | the reaction under (message, normalized sender) is deleted; true exactly when it existed; nothing else changes |
| BaseHandlers.BaseHandler.SendMessage | src/handler/base_handler.py:165-198 | an empty recipient or text is refused with nothing changed; otherwise one request goes to the normalized recipient, and the text is stored as the bot's message under the bot's normalized JID, adding at most that sender row and no group |
| KnowledgeBaseAnswers.Scope | src/handler/knowledge_base_answers.py:48-54 | no scope without a group; otherwise the group first, then the related groups exactly when it has community keys |
| KnowledgeBaseAnswers.ScopeJids | src/handler/knowledge_base_answers.py:73-75 | the JIDs of the scope's groups, in order |
| KnowledgeBaseAnswers.FilterSpec | src/handler/knowledge_base_answers.py:71-76 | the filter keeps exactly the topics whose group is in scope; a topic without a group never passes |
| KnowledgeBaseAnswers.SortSpec | src/handler/knowledge_base_answers.py:67 | ordering by distance gives a sorted permutation of the topics |
| KnowledgeBaseAnswers.Retrieve | src/handler/knowledge_base_answers.py:58-70 | at most ten topics are retrieved |
| KnowledgeBaseAnswers.RetrieveRanked | src/handler/knowledge_base_answers.py:58-76 | ten topics, or all eligible ones when fewer, in non-decreasing distance, drawn from the eligible topics, none left out closer than one kept |
| KnowledgeBaseAnswers.RetrievedAreEligible | src/handler/knowledge_base_answers.py:71-77 | every retrieved topic passed the filter |
| KnowledgeBaseAnswers.RetrieveScoped | src/handler/knowledge_base_answers.py:71-76 | with a scope, every retrieved topic belongs to one of its groups |
| KnowledgeBaseAnswers.RetrieveIsolated | src/handler/knowledge_base_answers.py:48-76 | a retrieved topic belongs to the group that starts the scope, or to a related group when that group has community keys |
| KnowledgeBaseAnswers.MessageGroup | src/handler/knowledge_base_answers.py:49 | `message.group` is the row stored under the message's group JID, none without one |
| KnowledgeBaseAnswers.MessageScopeIsolated | src/handler/knowledge_base_answers.py:48-76 | with groups stored under their own JIDs, a message whose group row exists retrieves only topics whose group JID is the message's own, or a related group's when its group has community keys |
| KnowledgeBaseAnswers.RetrieveUnscoped | src/handler/knowledge_base_answers.py:48-71 | without a group, retrieval ranks all topics, orphaned ones included |
| KnowledgeBaseAnswers.TopicEntries | src/handler/knowledge_base_answers.py:79-82 | one entry per retrieved topic, in order, each `subject \n summary` |
| KnowledgeBaseAnswers.DistanceNotes | src/handler/knowledge_base_answers.py:83 | one distance note per retrieved topic, in order |
| KnowledgeBaseAnswers.CollectTopics | src/handler/knowledge_base_answers.py:79-83 | the loop builds exactly the entries and the distance notes |
| KnowledgeBaseAnswers.TopicsSectionSpec | src/handler/knowledge_base_answers.py:144 | no topics give exactly `No related topics found.`; otherwise the entries joined by `\n---\n`, each appearing in the section |
| KnowledgeBaseAnswers.PromptCarries | src/handler/knowledge_base_answers.py:137-145 | the prompt contains the question, the chat history and the topics section |
| KnowledgeBaseAnswers.KnowledgeBaseAnswers.Answer | src/handler/knowledge_base_answers.py:20-112 | no text: nothing happens; otherwise only the rephrased question is embedded, retrieval ranks by that embedding within the scope of the message's stored group row, and is confined to the message's group and its related groups, the prompt carries the original text, and the reply goes to the chat as a reply to the message and is stored as the bot's message; a refused send changes nothing |
| KnowledgeBaseStatus.StatusNamesDistinct | src/api/knowledge_base_status.py:61-72 | the status strings are pairwise distinct |
| KnowledgeBaseStatus.ManagedGroups | src/api/knowledge_base_status.py:29-31 | there are at most as many managed groups as groups |
| KnowledgeBaseStatus.ManagedGroupsSpec | src/api/knowledge_base_status.py:29-31 | the managed groups are exactly the groups marked managed |
| KnowledgeBaseStatus.TopicsPartition | src/api/knowledge_base_status.py:34-46 | valid topics are those with a group, orphaned those without, and their counts sum to the total |
| KnowledgeBaseStatus.CountsConsistent | src/api/knowledge_base_status.py:24-46 | managed groups ≤ total groups; valid + orphaned topics = total topics |
| KnowledgeBaseStatus.Classify | src/api/knowledge_base_status.py:61-72 | `no_managed_groups` exactly when none is managed, `no_topics` when some is but no topic is valid, `healthy` otherwise |
| KnowledgeBaseStatus.ManagedGroupsList | src/api/knowledge_base_status.py:49-58 | one entry per managed group, in order, with name or `Unknown` and the ISO time or none |
| KnowledgeBaseStatus.ReportClassification | src/api/knowledge_base_status.py:61-78 | the status follows the rules above even with no topics at all; `healthy` holds exactly for `"healthy"` and exactly when there is no issue and no recommendation |
| KnowledgeBaseStatus.ReportWarnings | src/api/knowledge_base_status.py:87-89 | one warning exactly when some topic has no group, naming the orphan count; none otherwise |
| KnowledgeBaseStatus.ReportManagedList | src/api/knowledge_base_status.py:49-58 | the list has one entry per managed group and lists managed groups only |
| KnowledgeBaseStatus.ErrorReportSpec | src/api/knowledge_base_status.py:92-102 | a database error gives status `error`, not healthy, empty statistics, list and warnings, and the error in the issue |
| MessageHandling.ExtractPhoneSpec | src/handler/__init__.py:37-51 | none for a missing or empty number; otherwise the text before the first `@`, or the whole number without one |
| MessageHandling.SentMessagesAreFromBot | src/handler/base_handler.py:189-194 | a message the bot sends and stores, under `normalize_jid` of its full JID, is recognised by `_is_bot_message` (src/handler/__init__.py:125-143) as the bot's own when that JID is the bot's `normalize_str()` or its full JID |
| MessageHandling.DecideSpec | src/handler/__init__.py:147-205 | each decision holds exactly under its rule: direct chats are ignored; a non-admin's task request in a group is refused whatever the toggle; the admin's mention with "allow" in any case toggles; any other group message with a mention or special command is routed, with permission = toggle or admin; the rest is not addressed |
| MessageHandling.AllowInAnyCase | src/handler/__init__.py:172-186 | the admin's group mention with "ALLOW" flips the toggle: the keyword is matched on the lowered text |
| MessageHandling.DecideIgnoresToggleButPermission | src/handler/__init__.py:176-202 | the toggle changes nothing but the router's permission flag |
| MessageHandling.ToggleTwiceRestores | src/handler/__init__.py:187-196 | the same admin "allow" message toggles again, so two restore the setting; the two replies differ |
| MessageHandling.Reply | src/handler/__init__.py:174-194 | a reply is sent exactly for a task refusal or a toggle, and it is never empty (so `send_message` accepts it) |
| MessageHandling.InteractionToggle.constructor | src/handler/__init__.py:26 | participants may not interact at start |
| MessageHandling.MessageHandler.HandleBotCommand | src/handler/__init__.py:147-210 | the decision follows the rules; the toggle flips only on an admin "allow"; a refusal or toggle reply is sent to the chat and stored as the bot's message; with no reply, or an empty chat, nothing changes |
| MessageHandling.MessageHandler.Handle | src/handler/__init__.py:65-123 | skips a missing message, a blank text and a duplicate with nothing changed; stores the message before the bot test; a bot message changes only the tables; other messages get command handling, whose toggle flip, reply and stored reply are stated |

## Left out

- Logging, `async`, and database failures other than the reaction table's two foreign keys: the tables never fail otherwise. The `except` branches that turn a failure into `None` / `False` (src/handler/base_handler.py:128-130, 161-163) are therefore exercised only by the `from_webhook` errors and by a reaction that breaks a foreign key.
- Models.NewGroup: the defaults of a new group row (no name, no community keys, unmanaged, no last ingest) are assumed from `BaseGroup`; src/models/group.py is not part of this model.
- `normalize_jid`, `parse_jid`, `Message.has_mentioned`, `strftime` and `isoformat` are not part of this model: they are abstract function parameters, or a `mentioned` flag.
- `Message.from_webhook` (src/models/message.py) is not part of this model: the parsed message is an input.
- The generic `upsert` (src/models/upsert.py) is not part of this model: a row is inserted or replaced under its primary key.
- The language models, the embedding service and the cosine distance are function parameters; the agents' system prompts are not modelled.
- The 400-message history query and `get_related_community_groups` are not modelled: both are inputs of `KnowledgeBaseAnswers.KnowledgeBaseAnswers.Answer`.
- The router call (src/handler/__init__.py:200) is not modelled, only the decision to route and its permission flag. It passes two arguments to `Router.__call__`, which takes one (src/handler/router.py:51).
- `forward_message` and `get_user_groups` are HTTP plumbing and are left out.
- Failures of the WhatsApp client's send are not modelled; only the two `assert`s of `send_message` are. The `RuntimeError` for a message that was not stored cannot happen: `store_message` always returns the message.
- BaseHandlers.SentMessage: the sent message has no group JID; a group derived from the chat by the `Message` model is not shown. Its sender is `normalize_jid(str(my_number))`, assuming that the `BaseMessage` validator (src/models/message.py, not part of this model) normalizes `sender_jid`, as the comment at src/handler/base_handler.py:69 says.
- BaseHandlers.BaseHandler.StoreMessage: requires the message's sender JID to be normalized, as the `Message` model's validator makes it (src/models/message.py is not part of this model). A non-normalized sender that is not stored would break the message table's foreign key on `sender_jid`, and `store_message` would raise. That failure is not modelled. `StorePayload` and `MessageHandling.MessageHandler.Handle` pass the same requirement on for their parsed message.
- BaseHandlers.BaseHandler.Valid: assumes `normalize_jid` is idempotent (`Values.NormalizeIdempotent`); the `whatsapp.jid` module is not part of this model.
- Reactions.FromWebhook: the model assumes, as the code's own `Base…(...).model_dump()` pattern implies, that building the table class `Reaction` runs no field validator. That library behaviour is not part of this model. If the validator did run, the sender JID would be normalized.
- Reactions.FromWebhook: the payload always carries a timestamp; the `datetime.now` default of a reaction built without one is left out.
- Reactions.UpsertRows: the id counter advances only on insert; the Postgres sequence value an `ON CONFLICT` update also consumes is not modelled. Only the distinctness of ids is claimed.
- Phones.PhoneMapper.AddMapping: the last-seen times are left out; only the set of seen phones, in first-seen order, is kept.
- `Text.Lower` lowers ASCII letters only. That is enough for the case-insensitive `"allow"` test: no other character lowers to one of its letters.
- `_is_bot_message` and `extract_phone_from_participant` catch exceptions; the model has none to catch (a participant without a number is the missing number).
- The composite identifier built at src/handler/__init__.py:79 is only logged and is left out.

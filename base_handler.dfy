/** `BaseHandler`: storing messages and reactions, removing reactions and
    sending messages, over the in-memory session and client. */
module BaseHandlers {
  import opened Values
  import opened Models
  import opened Reactions
  import opened Store

  /** The sender table after "create the sender row if none is stored under
      `jid`": the row is built through `BaseSender`, whose validator
      normalizes the JID, and is upserted under that normalized JID. */
  function WithSender(senders: map<string, Sender>, jid: string, pushName: Option<string>,
                      normalize: string -> string): map<string, Sender> {
    if jid in senders then senders else senders[normalize(jid) := Sender(normalize(jid), pushName)]
  }

  /** The group table after "create a bare group row if the message names a
      group that is absent". */
  function WithGroup(groups: map<string, Group>, groupJid: Option<string>): map<string, Group> {
    if Truthy(groupJid) && groupJid.value !in groups then groups[groupJid.value := NewGroup(groupJid.value)]
    else groups
  }

  /** A stored sender leaves the table as it was. Otherwise one row, keyed
      by the normalized JID and carrying the push name, is inserted or
      replaces the row under that key, and no other row changes. So `jid`
      itself is a sender afterwards exactly when it was one or is normalized. */
  lemma WithSenderSpec(senders: map<string, Sender>, jid: string, pushName: Option<string>, normalize: string -> string)
    ensures jid in senders ==> WithSender(senders, jid, pushName, normalize) == senders
    ensures jid !in senders ==>
      && WithSender(senders, jid, pushName, normalize).Keys == senders.Keys + {normalize(jid)}
      && WithSender(senders, jid, pushName, normalize)[normalize(jid)] == Sender(normalize(jid), pushName)
    ensures forall j | j in senders && j != normalize(jid) :: WithSender(senders, jid, pushName, normalize)[j] == senders[j]
    ensures jid in WithSender(senders, jid, pushName, normalize) <==> jid in senders || normalize(jid) == jid
  {
  }

  /** A group row is added only for a named group that is absent, as a bare
      unmanaged row; existing groups are left as they were. */
  lemma WithGroupSpec(groups: map<string, Group>, groupJid: Option<string>)
    ensures WithGroup(groups, groupJid).Keys == groups.Keys + (if Truthy(groupJid) then {groupJid.value} else {})
    ensures forall g | g in groups :: WithGroup(groups, groupJid)[g] == groups[g]
    ensures Truthy(groupJid) && groupJid.value !in groups ==>
      WithGroup(groups, groupJid)[groupJid.value] == NewGroup(groupJid.value)
  {
  }

  /** Storing a message with text keeps every stored message linked to its
      sender and group, and links the new one. */
  lemma StoreKeepsLinks(messages: map<string, Message>, senders: map<string, Sender>, groups: map<string, Group>,
                        m: Message, pushName: Option<string>, normalize: string -> string)
    requires forall id | id in messages :: MessageLinked(messages[id], senders, groups)
    requires normalize(m.senderJid) == m.senderJid
    ensures forall id | id in messages ::
      MessageLinked(messages[id], WithSender(senders, m.senderJid, pushName, normalize), WithGroup(groups, m.groupJid))
    ensures MessageLinked(m, WithSender(senders, m.senderJid, pushName, normalize), WithGroup(groups, m.groupJid))
  {
    WithSenderSpec(senders, m.senderJid, pushName, normalize);
    WithGroupSpec(groups, m.groupJid);
  }

  /** The tables after `store_message` stores `m` with `pushName`: nothing
      for a message without text; otherwise the sender and group rows created
      when absent and the message upserted. */
  function Stored(s: Snapshot, m: Message, pushName: Option<string>, normalize: string -> string): Snapshot {
    if !Truthy(m.text) then s
    else Snapshot(WithSender(s.senders, m.senderJid, pushName, normalize), WithGroup(s.groups, m.groupJid), s.messages[m.messageId := m])
  }

  /** Storing a message keeps the tables valid and keeps every sender and
      message row. */
  lemma StoredKeepsValid(s: Snapshot, m: Message, pushName: Option<string>, normalize: string -> string)
    requires TablesValid(s)
    requires normalize(m.senderJid) == m.senderJid
    ensures TablesValid(Stored(s, m, pushName, normalize))
    ensures s.senders.Keys <= Stored(s, m, pushName, normalize).senders.Keys
    ensures s.messages.Keys <= Stored(s, m, pushName, normalize).messages.Keys
  {
    if Truthy(m.text) {
      StoreKeepsLinks(s.messages, s.senders, s.groups, m, pushName, normalize);
      WithSenderSpec(s.senders, m.senderJid, pushName, normalize);
      WithGroupSpec(s.groups, m.groupJid);
    }
  }

  /** Whether `store_reaction` keeps a payload's reaction: the payload carries
      a reaction that `Reaction.from_webhook` accepts, the reacted-to message
      is stored, and the reaction's sender JID (the raw sender part) is a
      sender row once `store_reaction` has created one. A sender absent under
      that JID gets a row under the normalized JID, so this holds exactly when
      the JID is already stored or is already normalized. Otherwise the insert
      breaks one of the reaction table's foreign keys, the nested transaction
      is rolled back (with the sender row it created) and nothing is stored. */
  predicate ReactionAccepted(p: WebhookPayload, normalize: string -> string, s: Snapshot) {
    && p.reaction.Some? && FromWebhook(p).Ok?
    && FromWebhook(p).value.messageId in s.messages
    && (FromWebhook(p).value.senderJid in s.senders || normalize(FromWebhook(p).value.senderJid) == FromWebhook(p).value.senderJid)
  }

  /** The reaction table after `store_reaction`. */
  function TableAfterReaction(t: Table, p: WebhookPayload, normalize: string -> string, s: Snapshot): Table {
    if ReactionAccepted(p, normalize, s) then UpsertRows(t, FromWebhook(p).value) else t
  }

  /** The sender, group and message tables after `store_reaction`: only the
      reacting sender's row may be added. */
  function SnapshotAfterReaction(s: Snapshot, p: WebhookPayload, normalize: string -> string): Snapshot {
    if ReactionAccepted(p, normalize, s) then
      s.(senders := WithSender(s.senders, FromWebhook(p).value.senderJid, p.pushname, normalize))
    else s
  }

  /** An accepted reaction keeps the tables valid, and both of its keys are
      stored afterwards. */
  lemma ReactionKeepsValid(s: Snapshot, p: WebhookPayload, normalize: string -> string)
    requires TablesValid(s)
    ensures TablesValid(SnapshotAfterReaction(s, p, normalize))
    ensures s.senders.Keys <= SnapshotAfterReaction(s, p, normalize).senders.Keys
    ensures SnapshotAfterReaction(s, p, normalize).messages == s.messages
    ensures ReactionAccepted(p, normalize, s) ==>
      var r := FromWebhook(p).value;
      r.messageId in s.messages && r.senderJid in SnapshotAfterReaction(s, p, normalize).senders
  {
    if ReactionAccepted(p, normalize, s) {
      var r := FromWebhook(p).value;
      WithSenderSpec(s.senders, r.senderJid, p.pushname, normalize);
      var after := SnapshotAfterReaction(s, p, normalize);
      assert forall id | id in s.messages :: MessageLinked(s.messages[id], after.senders, after.groups);
    }
  }

  /** Rows only added to the message and sender tables keep every reaction
      linked, and a reaction upserted on stored keys is linked too. */
  lemma ReactionsStayLinked(t: Table, s: Snapshot, s': Snapshot, r: Option<Reaction>)
    requires TableValid(t) && ReactionsLinked(t, s)
    requires s.messages.Keys <= s'.messages.Keys && s.senders.Keys <= s'.senders.Keys
    requires r.Some? ==> r.value.messageId in s'.messages && r.value.senderJid in s'.senders
    ensures ReactionsLinked(if r.Some? then UpsertRows(t, r.value) else t, s')
  {
    if r.Some? {
      UpsertEffect(t, r.value);
    }
  }

  /** Why `send_message` refuses: its two `assert`s. */
  datatype SendError = MissingRecipient | MissingText

  /** The message `send_message` stores for a sent text: the delivery id (or
      `"unknown"` when the response has none), the bot as sender under its
      normalized JID (`BaseMessage` normalizes `str(my_number)`), the
      normalized recipient as chat, and no group. */
  function SentMessage(deliveredId: Option<string>, chatJid: string, me: BotJid, normalize: string -> string,
                       text: string, now: Timestamp): (m: Message)
    ensures m.senderJid == normalize(me.full) && m.chatJid == chatJid && m.text == Some(text) && m.groupJid.None?
    ensures m.messageId == if deliveredId.Some? then deliveredId.value else "unknown"
  {
    Message(deliveredId.GetOr("unknown"), chatJid, normalize(me.full), Some(text), None, now)
  }

  /** The reply-to id sent with a message: normalized when given, as is otherwise. */
  function ReplyTo(replyTo: Option<string>, normalize: string -> string): Option<string> {
    if Truthy(replyTo) then Some(normalize(replyTo.value)) else replyTo
  }

  /** The tables after `send_message(toJid, text)`: unchanged when it refuses,
      otherwise the sent text stored as a message from the bot. */
  function AfterSend(s: Snapshot, toJid: string, text: string, normalize: string -> string, me: BotJid,
                     deliveredId: Option<string>, now: Timestamp): Snapshot {
    if toJid == "" || text == "" then s
    else Stored(s, SentMessage(deliveredId, normalize(toJid), me, normalize, text, now), None, normalize)
  }

  /** The client's outbox after `send_message(toJid, text, replyTo)`. */
  function OutboxAfterSend(outbox: seq<Outgoing>, toJid: string, text: string, replyTo: Option<string>,
                           normalize: string -> string): seq<Outgoing> {
    if toJid == "" || text == "" then outbox
    else outbox + [Outgoing(normalize(toJid), text, ReplyTo(replyTo, normalize))]
  }

  class BaseHandler {
    const session: Session
    const whatsapp: WhatsAppClient
    const jids: Jids

    /** The session is valid, and `normalize_jid` is idempotent. */
    ghost predicate Valid()
      reads this, session, session.reactions
    {
      session.Valid() && NormalizeIdempotent(jids)
    }

    constructor (session: Session, whatsapp: WhatsAppClient, jids: Jids)
      requires session.Valid() && NormalizeIdempotent(jids)
      ensures this.session == session && this.whatsapp == whatsapp && this.jids == jids
      ensures Valid()
    {
      this.session := session;
      this.whatsapp := whatsapp;
      this.jids := jids;
    }

    /** `store_message` for a parsed message: a message without text is
        returned as is and nothing is stored; otherwise the sender row and
        the group row are created when absent, then the message is upserted.
        A `Message`'s sender JID is normalized by its model. */
    method StoreMessage(m: Message, pushName: Option<string>) returns (stored: Message)
      requires Valid()
      requires jids.normalize(m.senderJid) == m.senderJid
      modifies session
      ensures Valid()
      ensures stored == m
      ensures !Truthy(m.text) ==> unchanged(session)
      ensures Truthy(m.text) ==>
        && session.senders == WithSender(old(session.senders), m.senderJid, pushName, jids.normalize)
        && session.groups == WithGroup(old(session.groups), m.groupJid)
        && session.messages == old(session.messages)[m.messageId := m]
      ensures Truthy(m.text) ==> m.messageId in session.messages && MessageLinked(m, session.senders, session.groups)
      ensures session.Contents() == Stored(old(session.Contents()), m, pushName, jids.normalize)
    {
      StoredKeepsValid(session.Contents(), m, pushName, jids.normalize);
      ReactionsStayLinked(session.reactions.table, session.Contents(), Stored(session.Contents(), m, pushName, jids.normalize), None);
      if !Truthy(m.text) {
        return m;
      }
      session.senders := WithSender(session.senders, m.senderJid, pushName, jids.normalize);
      session.groups := WithGroup(session.groups, m.groupJid);
      session.messages := session.messages[m.messageId := m];
      stored := m;
    }

    /** `store_message` for a webhook payload: a payload carrying a reaction
        goes to `store_reaction` and yields no message; otherwise `parsed`
        (the payload as `Message.from_webhook` builds it) is stored with the
        payload's push name. */
    method StorePayload(p: WebhookPayload, parsed: Message) returns (stored: Option<Message>)
      requires Valid()
      requires p.reaction.None? ==> jids.normalize(parsed.senderJid) == parsed.senderJid
      modifies session, session.reactions
      ensures Valid()
      ensures p.reaction.Some? ==> stored.None?
      ensures p.reaction.Some? ==>
        && session.Contents() == SnapshotAfterReaction(old(session.Contents()), p, jids.normalize)
        && session.reactions.table == TableAfterReaction(old(session.reactions.table), p, jids.normalize, old(session.Contents()))
      ensures p.reaction.None? ==>
        && stored == Some(parsed) && unchanged(session.reactions)
        && session.Contents() == Stored(old(session.Contents()), parsed, p.pushname, jids.normalize)
      ensures p.reaction.None? && !Truthy(parsed.text) ==> unchanged(session)
    {
      if p.reaction.Some? {
        var _ := StoreReaction(p);
        return None;
      }
      var m := StoreMessage(parsed, p.pushname);
      stored := Some(m);
    }

    /** `store_reaction`: no reaction, a payload `Reaction.from_webhook`
        rejects, or a reaction that breaks a foreign key of the reaction table
        stores nothing and yields none; otherwise the sender row is created
        when absent and the reaction is upserted. */
    method StoreReaction(p: WebhookPayload) returns (stored: Option<Reaction>)
      requires Valid()
      modifies session, session.reactions
      ensures Valid()
      ensures stored.Some? <==> ReactionAccepted(p, jids.normalize, old(session.Contents()))
      ensures stored.None? ==> unchanged(session) && unchanged(session.reactions)
      ensures session.Contents() == SnapshotAfterReaction(old(session.Contents()), p, jids.normalize)
      ensures session.reactions.table == TableAfterReaction(old(session.reactions.table), p, jids.normalize, old(session.Contents()))
      ensures stored.Some? ==>
        var r := FromWebhook(p).value;
        && session.senders == WithSender(old(session.senders), r.senderJid, p.pushname, jids.normalize)
        && session.groups == old(session.groups) && session.messages == old(session.messages)
        && session.reactions.table == UpsertRows(old(session.reactions.table), r)
        && Key(stored.value) == Key(r) && stored.value.emoji == r.emoji && stored.value.id.Some?
    {
      if p.reaction.None? {
        return None;
      }
      var parsed := FromWebhook(p);
      if parsed.Err? {
        return None;
      }
      var r := parsed.value;
      // A missing message, or a sender row created under a JID other than the
      // reaction's, breaks a foreign key: the whole nested transaction is undone.
      if r.messageId !in session.messages || (r.senderJid !in session.senders && jids.normalize(r.senderJid) != r.senderJid) {
        return None;
      }
      ghost var before := session.Contents();
      ghost var after := SnapshotAfterReaction(before, p, jids.normalize);
      ReactionKeepsValid(before, p, jids.normalize);
      ReactionsStayLinked(session.reactions.table, before, after, Some(r));
      session.senders := WithSender(session.senders, r.senderJid, p.pushname, jids.normalize);
      var row := session.reactions.Upsert(r);
      stored := Some(row);
    }

    /** `remove_reaction`: delete the reaction on `messageId` by the normalized
        sender; true exactly when there was one. No other row changes. */
    method RemoveReaction(messageId: string, senderJid: string) returns (removed: bool)
      requires Valid()
      modifies session.reactions
      ensures Valid()
      ensures removed == ((messageId, jids.normalize(senderJid)) in old(session.reactions.table.rows))
      ensures session.reactions.table.rows == old(session.reactions.table.rows) - {(messageId, jids.normalize(senderJid))}
      ensures session.reactions.table.nextId == old(session.reactions.table.nextId)
    {
      removed := session.reactions.Delete((messageId, jids.normalize(senderJid)));
    }

    /** `send_message`: both the recipient and the text must be non-empty; the
        request goes to the normalized recipient, and the sent text is stored
        as a message from the bot in that chat. `deliveredId` is the message id
        in the client's response, if any. */
    method SendMessage(toJid: string, text: string, replyTo: Option<string>, deliveredId: Option<string>, now: Timestamp)
      returns (r: Result<Message, SendError>)
      requires Valid()
      modifies session, whatsapp
      ensures Valid()
      ensures toJid == "" ==> r == Err(MissingRecipient)
      ensures toJid != "" && text == "" ==> r == Err(MissingText)
      ensures r.Ok? <==> toJid != "" && text != ""
      ensures r.Err? ==> unchanged(session) && unchanged(whatsapp)
      ensures r.Ok? ==>
        && toJid != "" && text != ""
        && whatsapp.outbox == old(whatsapp.outbox) + [Outgoing(jids.normalize(toJid), text, ReplyTo(replyTo, jids.normalize))]
        && r.value == SentMessage(deliveredId, jids.normalize(toJid), whatsapp.me, jids.normalize, text, now)
        && session.senders == WithSender(old(session.senders), jids.normalize(whatsapp.me.full), None, jids.normalize)
        && session.groups == old(session.groups)
        && session.messages == old(session.messages)[r.value.messageId := r.value]
      ensures session.Contents() == AfterSend(old(session.Contents()), toJid, text, jids.normalize, whatsapp.me, deliveredId, now)
      ensures whatsapp.outbox == OutboxAfterSend(old(whatsapp.outbox), toJid, text, replyTo, jids.normalize)
    {
      if toJid == "" {
        return Err(MissingRecipient);
      }
      if text == "" {
        return Err(MissingText);
      }
      var to := jids.normalize(toJid);
      whatsapp.outbox := whatsapp.outbox + [Outgoing(to, text, ReplyTo(replyTo, jids.normalize))];
      var stored := StoreMessage(SentMessage(deliveredId, to, whatsapp.me, jids.normalize, text, now), None);
      r := Ok(stored);
    }
  }
}

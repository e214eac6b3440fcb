/** In-memory stand-ins for the two outside services the handlers talk to:
    the database session (one map per table, keyed by primary key) and the
    WhatsApp client (the list of requests it was asked to send). */
module Store {
  import opened Values
  import opened Models
  import opened Reactions

  /** A stored message refers to a stored sender and, when it names a group,
      to a stored group. */
  ghost predicate MessageLinked(m: Message, senders: map<string, Sender>, groups: map<string, Group>) {
    && m.senderJid in senders
    && (Truthy(m.groupJid) ==> m.groupJid.value in groups)
  }

  /** The contents of the sender, group and message tables. */
  datatype Snapshot = Snapshot(
    senders: map<string, Sender>,
    groups: map<string, Group>,
    messages: map<string, Message>)

  /** Every row is stored under its own primary key, and every stored message
      refers to a stored sender and group (the rows the handlers create first). */
  ghost predicate TablesValid(s: Snapshot) {
    && (forall j | j in s.senders :: s.senders[j].jid == j)
    && (forall j | j in s.groups :: s.groups[j].groupJid == j)
    && (forall id | id in s.messages :: s.messages[id].messageId == id)
    && (forall id | id in s.messages :: MessageLinked(s.messages[id], s.senders, s.groups))
  }

  /** Every reaction refers to a stored message and sender (the reaction
      table's two foreign keys). */
  ghost predicate ReactionsLinked(t: Table, s: Snapshot) {
    forall k | k in t.rows :: k.0 in s.messages && k.1 in s.senders
  }

  /** The database session: sender, group and message tables and the reaction table. */
  class Session {
    var senders: map<string, Sender>
    var groups: map<string, Group>
    var messages: map<string, Message>
    const reactions: ReactionTable

    function Contents(): Snapshot
      reads this
    {
      Snapshot(senders, groups, messages)
    }

    /** The tables are valid, the reaction table is valid, and every reaction
        refers to a stored message and sender. */
    ghost predicate Valid()
      reads this, reactions
    {
      && TablesValid(Contents())
      && reactions.Valid()
      && ReactionsLinked(reactions.table, Contents())
    }

    constructor ()
      ensures Valid() && fresh(reactions)
      ensures senders == map[] && groups == map[] && messages == map[]
      ensures reactions.table == Table(map[], 1)
    {
      senders := map[];
      groups := map[];
      messages := map[];
      reactions := new ReactionTable();
    }
  }

  /** A `SendMessageRequest`: recipient, text and the message replied to. */
  datatype Outgoing = Outgoing(phone: string, text: string, replyTo: Option<string>)

  /** The WhatsApp client: the bot's own JID and every request sent so far. */
  class WhatsAppClient {
    const me: BotJid
    var outbox: seq<Outgoing>

    constructor (me: BotJid)
      ensures this.me == me && outbox == []
    {
      this.me := me;
      outbox := [];
    }
  }
}

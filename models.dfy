/** The stored entities the bot reads and writes: knowledge-base topics,
    groups, senders, messages, and the incoming webhook payload. */
module Models {
  import opened Values

  /** A knowledge-base topic. A topic whose `groupJid` is missing is orphaned. */
  datatype Topic = Topic(id: string, groupJid: Option<string>, subject: string, summary: string)

  /** A WhatsApp group row. */
  datatype Group = Group(
    groupJid: string,
    groupName: Option<string>,
    communityKeys: seq<string>,
    managed: bool,
    lastIngest: Option<Timestamp>)

  /** A freshly created group row holding only its JID (`BaseGroup(group_jid=...)`). */
  function NewGroup(groupJid: string): (g: Group)
    ensures g.groupJid == groupJid && !g.managed && g.communityKeys == []
  {
    Group(groupJid, None, [], false, None)
  }

  /** A sender row, keyed by its JID. */
  datatype Sender = Sender(jid: string, pushName: Option<string>)

  /** A chat message row, keyed by `messageId`. */
  datatype Message = Message(
    messageId: string,
    chatJid: string,
    senderJid: string,
    text: Option<string>,
    groupJid: Option<string>,
    timestamp: Timestamp)

  /** The `reaction` part of a webhook payload: the reacted-to message id and the emoji. */
  datatype ReactionPayload = ReactionPayload(id: Option<string>, message: Option<string>)

  /** The fields of a webhook payload the core reads. `fromJid` is the payload's
      `from` field: `"sender"` or `"sender in group"`. */
  datatype WebhookPayload = WebhookPayload(
    fromJid: Option<string>,
    reaction: Option<ReactionPayload>,
    timestamp: Timestamp,
    pushname: Option<string>)
}

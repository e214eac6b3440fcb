/** `MessageHandler`: the skip sequence for an incoming message, the bot's
    own-message test, and the gating of bot commands by the admin and the
    process-wide "participants may interact" toggle. */
module MessageHandling {
  import opened Values
  import opened Text
  import opened Models
  import opened Store
  import opened BaseHandlers

  /** `ADMIN_USER`: the only user who may create tasks or flip the toggle. */
  const AdminUser := "972532741041"
  /** "new task". */
  const TaskCommand := "משימה חדשה"
  /** Texts that reach the router without a mention: "@everyone" in Hebrew and
      in English, and "new task". */
  const SpecialCommands := ["@כולם", "@everyone", TaskCommand]
  /** "Only the admin can add tasks." */
  const TaskRefusal := "רק המנהל יכול להוסיף משימות."
  const AllowKeyword := "allow"

  /** `extract_phone_from_participant`, given the participant's `PhoneNumber`:
      the text before the first `@`, the whole number without one, none when
      the number is missing or empty. */
  function ExtractPhoneFromParticipant(phoneNumber: Option<string>): Option<string> {
    if Truthy(phoneNumber) then
      var phone := phoneNumber.value;
      Some(if Contains(phone, "@") then Before(phone, "@") else phone)
    else None
  }

  lemma ExtractPhoneSpec(phoneNumber: Option<string>)
    ensures ExtractPhoneFromParticipant(phoneNumber).None? <==> !Truthy(phoneNumber)
    ensures Truthy(phoneNumber) ==>
      var phone, r := phoneNumber.value, ExtractPhoneFromParticipant(phoneNumber).value;
      && r <= phone
      && (forall i | 0 <= i < |r| :: r[i] != '@')
      && (Contains(phone, "@") ==> |r| < |phone| && phone[|r|] == '@')
      && (!Contains(phone, "@") ==> r == phone)
  {
    if Truthy(phoneNumber) {
      BeforeChar(phoneNumber.value, '@');
    }
  }

  /** The four spellings of the bot's own JID. */
  function BotJids(me: BotJid): seq<string> {
    [me.full, me.normalized, me.user + "@s.whatsapp.net", me.user + "@c.us"]
  }

  /** `_is_bot_message`. */
  predicate IsBotMessage(senderJid: string, me: BotJid) {
    senderJid in BotJids(me)
  }

  /** The message `send_message` stores, whose sender is `normalize_jid` of
      the bot's full JID, is recognised by `_is_bot_message` as the bot's own
      whenever that normalization agrees with `normalize_str()` or leaves the
      full JID as it is. */
  lemma SentMessagesAreFromBot(deliveredId: Option<string>, chatJid: string, me: BotJid, normalize: string -> string,
                               text: string, now: Timestamp)
    ensures normalize(me.full) == me.normalized || normalize(me.full) == me.full ==>
      IsBotMessage(SentMessage(deliveredId, chatJid, me, normalize, text, now).senderJid, me)
  {
  }

  /** A text that reaches the router without a mention. */
  predicate IsSpecialCommand(text: Option<string>) {
    Truthy(text) && exists c | c in SpecialCommands :: Contains(text.value, c)
  }

  /** What `_handle_bot_command` does with a message. */
  datatype Decision =
    | IgnoreDirect          // not a group chat: no reply at all
    | RefuseTask            // a non-admin asked for a task: refusal reply
    | ToggleAdminOnly       // the admin said "allow" to the bot: flip and report
    | Route(permitted: bool) // hand over to the router with this permission
    | NotAddressed          // neither mentioned nor a special command

  /** The rules of `_handle_bot_command`, in order. `allow` is the toggle. */
  function Decide(m: Message, mentioned: bool, jids: Jids, allow: bool): Decision {
    var senderUser := jids.user(m.senderJid);
    if !jids.isGroup(m.chatJid) then IgnoreDirect
    else if Truthy(m.text) && Contains(m.text.value, TaskCommand) && senderUser != AdminUser then RefuseTask
    else if mentioned && senderUser == AdminUser && Contains(Lower(TextOr(m.text)), AllowKeyword) then ToggleAdminOnly
    else if mentioned || IsSpecialCommand(m.text) then Route(allow || senderUser == AdminUser)
    else NotAddressed
  }

  /** A task request from a non-admin in a group. */
  predicate TaskRefused(m: Message, jids: Jids) {
    jids.isGroup(m.chatJid) && Truthy(m.text) && Contains(m.text.value, TaskCommand) && jids.user(m.senderJid) != AdminUser
  }

  /** The admin mentioning the bot in a group with "allow" in any letter case. */
  predicate AdminToggles(m: Message, mentioned: bool, jids: Jids) {
    jids.isGroup(m.chatJid) && mentioned && jids.user(m.senderJid) == AdminUser && Contains(Lower(TextOr(m.text)), AllowKeyword)
  }

  /** Each decision holds exactly under its rule. Direct chats are ignored
      before any other rule. A task request from anyone but the admin is
      refused whatever the toggle says. The admin's "allow" mention flips the
      toggle. Any other group message that mentions the bot or holds a
      special command is routed, permitted exactly when the toggle is on or
      the sender is the admin; the rest is not addressed. */
  lemma DecideSpec(m: Message, mentioned: bool, jids: Jids, allow: bool)
    ensures Decide(m, mentioned, jids, allow) == IgnoreDirect <==> !jids.isGroup(m.chatJid)
    ensures Decide(m, mentioned, jids, allow) == RefuseTask <==> TaskRefused(m, jids)
    ensures Decide(m, mentioned, jids, allow) == ToggleAdminOnly <==> AdminToggles(m, mentioned, jids)
    ensures Decide(m, mentioned, jids, allow).Route? <==>
      && jids.isGroup(m.chatJid) && !TaskRefused(m, jids) && !AdminToggles(m, mentioned, jids)
      && (mentioned || IsSpecialCommand(m.text))
    ensures Decide(m, mentioned, jids, allow).Route? ==>
      (Decide(m, mentioned, jids, allow).permitted <==> allow || jids.user(m.senderJid) == AdminUser)
    ensures Decide(m, mentioned, jids, allow) == NotAddressed <==>
      && jids.isGroup(m.chatJid) && !TaskRefused(m, jids) && !AdminToggles(m, mentioned, jids)
      && !mentioned && !IsSpecialCommand(m.text)
  {
  }

  /** "allow" is matched in any letter case: the admin's "ALLOW" mention
      flips the toggle. */
  lemma AllowInAnyCase(m: Message, jids: Jids, allow: bool)
    requires jids.isGroup(m.chatJid) && jids.user(m.senderJid) == AdminUser
    requires m.text == Some("ALLOW")
    ensures Decide(m, true, jids, allow) == ToggleAdminOnly
  {
    assert Lower(TextOr(m.text)) == AllowKeyword;
    assert OccursAt(Lower(TextOr(m.text)), AllowKeyword, 0);
  }

  /** The toggle changes nothing but the router's permission flag. */
  lemma DecideIgnoresToggleButPermission(m: Message, mentioned: bool, jids: Jids, allow: bool)
    ensures Decide(m, mentioned, jids, allow).Route? <==> Decide(m, mentioned, jids, !allow).Route?
    ensures !Decide(m, mentioned, jids, allow).Route? ==> Decide(m, mentioned, jids, allow) == Decide(m, mentioned, jids, !allow)
  {
  }

  /** The reply to a toggle, naming the new state. */
  function ToggleReply(allow: bool): string {
    "Admin only interactions: " + if !allow then "ON (admin-only)" else "OFF (everyone)"
  }

  /** The same "allow" message flips the toggle each time and so restores it
      after two; the two replies report opposite states. */
  lemma ToggleTwiceRestores(m: Message, mentioned: bool, jids: Jids, allow: bool)
    requires Decide(m, mentioned, jids, allow) == ToggleAdminOnly
    ensures Decide(m, mentioned, jids, !allow) == ToggleAdminOnly
    ensures ToggleReply(!allow) != ToggleReply(allow)
  {
    var prefix := "Admin only interactions: ";
    assert ToggleReply(!allow)[|prefix| + 1] != ToggleReply(allow)[|prefix| + 1];
  }

  /** The reply `_handle_bot_command` sends for a decision, given the toggle
      as it is after the decision: the refusal, the new toggle state, or none. */
  function Reply(d: Decision, allowAfter: bool): (reply: Option<string>)
    ensures reply.Some? <==> d == RefuseTask || d == ToggleAdminOnly
    ensures reply.Some? ==> reply.value != ""
  {
    match d
    case RefuseTask => Some(TaskRefusal)
    case ToggleAdminOnly => Some(ToggleReply(allowAfter))
    case _ => None
  }

  /** The tables after `_handle_bot_command` replies (or not) to `m`. */
  function AfterReply(s: Snapshot, reply: Option<string>, m: Message, jids: Jids, me: BotJid,
                      deliveredId: Option<string>, now: Timestamp): Snapshot {
    if reply.Some? then AfterSend(s, m.chatJid, reply.value, jids.normalize, me, deliveredId, now) else s
  }

  /** The outbox after `_handle_bot_command` replies (or not) to `m`. */
  function OutboxAfterReply(outbox: seq<Outgoing>, reply: Option<string>, m: Message, jids: Jids): seq<Outgoing> {
    if reply.Some? then OutboxAfterSend(outbox, m.chatJid, reply.value, Some(m.messageId), jids.normalize) else outbox
  }

  /** The module-level `allow_participants_interactions`, shared by every handler. */
  class InteractionToggle {
    var allowParticipantsInteractions: bool

    constructor ()
      ensures !allowParticipantsInteractions
    {
      allowParticipantsInteractions := false;
    }
  }

  /** How `__call__` finished with a payload. */
  datatype Outcome = NoMessage | EmptyText | Duplicate | FromBot | Commanded(decision: Decision)

  class MessageHandler {
    const handler: BaseHandler
    const toggle: InteractionToggle

    constructor (handler: BaseHandler, toggle: InteractionToggle)
      ensures this.handler == handler && this.toggle == toggle
    {
      this.handler := handler;
      this.toggle := toggle;
    }

    /** `_handle_bot_command`. `mentioned` is whether the message mentions the
        bot; `deliveredId` and `now` are those of a reply, if one is sent. A
        reply that cannot be sent is swallowed, and the toggle stays flipped. */
    method HandleBotCommand(m: Message, mentioned: bool, deliveredId: Option<string>, now: Timestamp)
      returns (d: Decision)
      requires handler.Valid()
      modifies toggle, handler.session, handler.whatsapp
      ensures handler.Valid()
      ensures d == Decide(m, mentioned, handler.jids, old(toggle.allowParticipantsInteractions))
      ensures toggle.allowParticipantsInteractions ==
        if d == ToggleAdminOnly then !old(toggle.allowParticipantsInteractions) else old(toggle.allowParticipantsInteractions)
      ensures d == RefuseTask && m.chatJid != "" ==>
        handler.whatsapp.outbox == old(handler.whatsapp.outbox)
          + [Outgoing(handler.jids.normalize(m.chatJid), TaskRefusal, ReplyTo(Some(m.messageId), handler.jids.normalize))]
      ensures d == ToggleAdminOnly && m.chatJid != "" ==>
        handler.whatsapp.outbox == old(handler.whatsapp.outbox)
          + [Outgoing(handler.jids.normalize(m.chatJid), ToggleReply(toggle.allowParticipantsInteractions),
                      ReplyTo(Some(m.messageId), handler.jids.normalize))]
      ensures !(d == RefuseTask || d == ToggleAdminOnly) ==> unchanged(handler.session) && unchanged(handler.whatsapp)
      ensures m.chatJid == "" ==> unchanged(handler.session) && unchanged(handler.whatsapp)
      ensures old(handler.session.messages).Keys <= handler.session.messages.Keys
      ensures handler.session.Contents() ==
        AfterReply(old(handler.session.Contents()), Reply(d, toggle.allowParticipantsInteractions), m,
                   handler.jids, handler.whatsapp.me, deliveredId, now)
      ensures handler.whatsapp.outbox ==
        OutboxAfterReply(old(handler.whatsapp.outbox), Reply(d, toggle.allowParticipantsInteractions), m, handler.jids)
    {
      d := Decide(m, mentioned, handler.jids, toggle.allowParticipantsInteractions);
      if d == RefuseTask {
        var _ := handler.SendMessage(m.chatJid, TaskRefusal, Some(m.messageId), deliveredId, now);
      } else if d == ToggleAdminOnly {
        toggle.allowParticipantsInteractions := !toggle.allowParticipantsInteractions;
        var _ := handler.SendMessage(m.chatJid, ToggleReply(toggle.allowParticipantsInteractions), Some(m.messageId), deliveredId, now);
      }
    }

    /** `__call__`, given the payload's parsed message (none when it does not
        parse) and push name: skip a missing message, a missing or blank text
        and a message already stored; otherwise store the message, skip the
        bot's own messages, and hand the rest to the command handler. */
    method Handle(parsed: Option<Message>, pushName: Option<string>, mentioned: bool,
                  deliveredId: Option<string>, now: Timestamp)
      returns (o: Outcome)
      requires handler.Valid()
      requires parsed.Some? ==> handler.jids.normalize(parsed.value.senderJid) == parsed.value.senderJid
      modifies toggle, handler.session, handler.whatsapp
      ensures handler.Valid()
      ensures parsed.None? ==> o == NoMessage
      ensures parsed.Some? && (parsed.value.text.None? || Strip(parsed.value.text.value) == "") ==> o == EmptyText
      ensures parsed.Some? && parsed.value.text.Some? && Strip(parsed.value.text.value) != "" ==>
        var m := parsed.value;
        && (m.messageId in old(handler.session.messages) ==> o == Duplicate)
        && (m.messageId !in old(handler.session.messages) ==>
              && m.messageId in handler.session.messages
              && (IsBotMessage(m.senderJid, handler.whatsapp.me) ==> o == FromBot)
              && (!IsBotMessage(m.senderJid, handler.whatsapp.me) ==>
                    o == Commanded(Decide(m, mentioned, handler.jids, old(toggle.allowParticipantsInteractions)))))
      ensures o.NoMessage? || o.EmptyText? || o.Duplicate? ==>
        unchanged(handler.session) && unchanged(handler.whatsapp) && unchanged(toggle)
      ensures o.FromBot? ==> unchanged(handler.whatsapp) && unchanged(toggle)
      ensures o.FromBot? ==> handler.session.Contents() == Stored(old(handler.session.Contents()), parsed.value, pushName, handler.jids.normalize)
      ensures o.Commanded? ==>
        && toggle.allowParticipantsInteractions ==
             (if o.decision == ToggleAdminOnly then !old(toggle.allowParticipantsInteractions)
              else old(toggle.allowParticipantsInteractions))
        && handler.session.Contents() ==
             AfterReply(Stored(old(handler.session.Contents()), parsed.value, pushName, handler.jids.normalize),
                        Reply(o.decision, toggle.allowParticipantsInteractions), parsed.value,
                        handler.jids, handler.whatsapp.me, deliveredId, now)
        && handler.whatsapp.outbox ==
             OutboxAfterReply(old(handler.whatsapp.outbox), Reply(o.decision, toggle.allowParticipantsInteractions),
                              parsed.value, handler.jids)
    {
      if parsed.None? {
        return NoMessage;
      }
      var m := parsed.value;
      if m.text.None? || Strip(m.text.value) == "" {
        return EmptyText;
      }
      if m.messageId in handler.session.messages {
        return Duplicate;
      }
      StripEmptyIffBlank(m.text.value);
      var _ := handler.StoreMessage(m, pushName);
      if IsBotMessage(m.senderJid, handler.whatsapp.me) {
        return FromBot;
      }
      var d := HandleBotCommand(m, mentioned, deliveredId, now);
      o := Commanded(d);
    }
  }
}

/** Reactions: building a reaction from a webhook payload, and the reaction
    table, which holds at most one reaction per (message, sender) and is
    written by an upsert on that key. */
module Reactions {
  import opened Values
  import opened Text
  import opened Models

  /** A reaction row. `id` is the auto-increment primary key, absent until stored. */
  datatype Reaction = Reaction(
    id: Option<nat>,
    messageId: string,
    senderJid: string,
    emoji: string,
    timestamp: Timestamp)

  /** The unique key of the table: (message_id, sender_jid). */
  type ReactionKey = (string, string)

  function Key(r: Reaction): ReactionKey {
    (r.messageId, r.senderJid)
  }

  /** The `ValueError`s `from_webhook` raises, in the order it checks for them;
      `SenderNotUnpackable` is the unpacking error of `sender, _ = from.split(" in ")`
      when the separator occurs more than once. */
  datatype ParseError = MissingReaction | MissingReactionId | MissingEmoji | MissingSender | SenderNotUnpackable

  /** The separator between sender and group in the payload's `from` field. */
  const InGroup := " in "

  /** The sender part of `from`: the text before `" in "`, or all of it. */
  function SenderPart(from: string): Result<string, ParseError> {
    if Contains(from, InGroup) then
      var parts := SplitOn(from, InGroup);
      if |parts| == 2 then Ok(parts[0]) else Err(SenderNotUnpackable)
    else Ok(from)
  }

  /** The sender part is all of `from` when it has no `" in "`, else the text
      before the first one; unpacking fails exactly when a second `" in "`
      follows the first. A parsed sender never contains `" in "`. */
  lemma SenderPartSpec(from: string)
    ensures Contains(from, InGroup) <==> Find(from, InGroup).Some?
    ensures !Contains(from, InGroup) ==> SenderPart(from) == Ok(from)
    ensures Contains(from, InGroup) ==>
      var i := Find(from, InGroup).value;
      && (SenderPart(from).Err? <==> Contains(from[i + |InGroup|..], InGroup))
      && (SenderPart(from).Ok? ==> SenderPart(from).value == from[..i])
    ensures SenderPart(from).Ok? ==> !Contains(SenderPart(from).value, InGroup)
  {
    FindSpec(from, InGroup);
    SplitPartsAreFree(from, InGroup);
    if Contains(from, InGroup) {
      SplitTwoPieces(from, InGroup, Find(from, InGroup).value);
    }
  }

  /** `Reaction.from_webhook`: validate the payload and build an unsaved reaction.
      The reaction is built directly on the table class, which runs no field
      validator, so the sender part is kept as it is, not normalized. */
  function FromWebhook(p: WebhookPayload): (r: Result<Reaction, ParseError>)
    ensures r == Err(MissingReaction) <==> p.reaction.None?
    ensures r == Err(MissingReactionId) <==> p.reaction.Some? && !Truthy(p.reaction.value.id)
    ensures r == Err(MissingEmoji) <==>
      p.reaction.Some? && Truthy(p.reaction.value.id) && !Truthy(p.reaction.value.message)
    ensures r == Err(MissingSender) <==>
      p.reaction.Some? && Truthy(p.reaction.value.id) && Truthy(p.reaction.value.message) && !Truthy(p.fromJid)
    ensures r == Err(SenderNotUnpackable) <==>
      && p.reaction.Some? && Truthy(p.reaction.value.id) && Truthy(p.reaction.value.message) && Truthy(p.fromJid)
      && SenderPart(p.fromJid.value).Err?
    ensures r.Ok? ==>
      && p.reaction.Some? && Truthy(p.fromJid)
      && r.value.id.None?
      && r.value.messageId == p.reaction.value.id.value
      && r.value.emoji == p.reaction.value.message.value
      && r.value.timestamp == p.timestamp
      && SenderPart(p.fromJid.value).Ok?
      && r.value.senderJid == SenderPart(p.fromJid.value).value
  {
    if p.reaction.None? then Err(MissingReaction)
    else if !Truthy(p.reaction.value.id) then Err(MissingReactionId)
    else if !Truthy(p.reaction.value.message) then Err(MissingEmoji)
    else if !Truthy(p.fromJid) then Err(MissingSender)
    else match SenderPart(p.fromJid.value)
      case Err(e) => Err(e)
      case Ok(sender) =>
        Ok(Reaction(None, p.reaction.value.id.value, sender, p.reaction.value.message.value, p.timestamp))
  }

  // ---------------------------------------------------------------------------
  // The reaction table

  /** The rows of the table, indexed by their unique key, and the next value
      of the primary-key sequence. */
  datatype Table = Table(rows: map<ReactionKey, Reaction>, nextId: nat)

  /** Every row sits under its own key and carries a stored id below the next
      one the sequence hands out; no two rows share an id. */
  ghost predicate TableValid(t: Table) {
    && (forall k | k in t.rows :: Key(t.rows[k]) == k && t.rows[k].id.Some? && t.rows[k].id.value < t.nextId)
    && (forall k1, k2 | k1 in t.rows && k2 in t.rows && k1 != k2 :: t.rows[k1].id != t.rows[k2].id)
  }

  /** The table after `INSERT ... ON CONFLICT (message_id, sender_jid) DO UPDATE
      SET emoji, timestamp`: a new key is inserted with the next id; an existing
      row keeps its id and takes the new emoji and timestamp. */
  function UpsertRows(t: Table, r: Reaction): Table {
    var k := Key(r);
    if k in t.rows then Table(t.rows[k := t.rows[k].(emoji := r.emoji, timestamp := r.timestamp)], t.nextId)
    else Table(t.rows[k := r.(id := Some(t.nextId))], t.nextId + 1)
  }

  /** An upsert keeps the table valid: keys match rows, ids stay distinct. */
  lemma UpsertKeepsValid(t: Table, r: Reaction)
    requires TableValid(t)
    ensures TableValid(UpsertRows(t, r))
  {
    var t' := UpsertRows(t, r);
    var k := Key(r);
    forall k1, k2 | k1 in t'.rows && k2 in t'.rows && k1 != k2
      ensures t'.rows[k1].id != t'.rows[k2].id
    {
      if k1 != k && k2 != k {
        assert t'.rows[k1] == t.rows[k1] && t'.rows[k2] == t.rows[k2];
      } else if k !in t.rows {
        assert t'.rows[k].id == Some(t.nextId);
      } else {
        assert t'.rows[k1].id == t.rows[k1].id && t'.rows[k2].id == t.rows[k2].id;
      }
    }
  }

  /** After an upsert the table holds exactly one row for the key, carrying the
      new emoji and timestamp; an existing row keeps its id; a new key adds one
      row; no other row changes. */
  lemma UpsertEffect(t: Table, r: Reaction)
    requires TableValid(t)
    ensures UpsertRows(t, r).rows.Keys == t.rows.Keys + {Key(r)}
    ensures Key(UpsertRows(t, r).rows[Key(r)]) == Key(r)
    ensures UpsertRows(t, r).rows[Key(r)].emoji == r.emoji
    ensures UpsertRows(t, r).rows[Key(r)].timestamp == r.timestamp
    ensures Key(r) in t.rows ==> UpsertRows(t, r).rows[Key(r)].id == t.rows[Key(r)].id
    ensures Key(r) !in t.rows ==> |UpsertRows(t, r).rows| == |t.rows| + 1
    ensures forall k | k in t.rows && k != Key(r) :: UpsertRows(t, r).rows[k] == t.rows[k]
  {
  }

  /** Upserting the same reaction twice leaves the table as one upsert does. */
  lemma UpsertIdempotent(t: Table, r: Reaction)
    ensures UpsertRows(UpsertRows(t, r), r) == UpsertRows(t, r)
  {
    var t1 := UpsertRows(t, r);
    var k := Key(r);
    assert k in t1.rows;
    assert t1.rows[k].(emoji := r.emoji, timestamp := r.timestamp) == t1.rows[k];
    assert t1.rows[k := t1.rows[k]] == t1.rows;
  }

  /** A second reaction by the same sender on the same message replaces the
      emoji and timestamp of the first and keeps its row and id. */
  lemma LastReactionWins(t: Table, first: Reaction, second: Reaction)
    requires Key(first) == Key(second)
    ensures UpsertRows(UpsertRows(t, first), second).rows.Keys == UpsertRows(t, first).rows.Keys
    ensures UpsertRows(UpsertRows(t, first), second).nextId == UpsertRows(t, first).nextId
    ensures UpsertRows(UpsertRows(t, first), second).rows[Key(second)]
      == UpsertRows(t, first).rows[Key(first)].(emoji := second.emoji, timestamp := second.timestamp)
  {
    var t1 := UpsertRows(t, first);
    assert Key(first) in t1.rows;
  }

  /** The reaction table the session writes through `Reaction.upsert_reaction`. */
  class ReactionTable {
    var table: Table

    ghost predicate Valid()
      reads this
    {
      TableValid(table)
    }

    constructor ()
      ensures Valid() && table == Table(map[], 1)
    {
      table := Table(map[], 1);
    }

    /** `Reaction.upsert_reaction`: insert or update on the (message, sender) key,
        then read back the row with that key. */
    method Upsert(r: Reaction) returns (stored: Reaction)
      requires Valid()
      modifies this
      ensures Valid()
      ensures table == UpsertRows(old(table), r)
      ensures Key(r) in table.rows && stored == table.rows[Key(r)]
      ensures Key(stored) == Key(r) && stored.emoji == r.emoji && stored.timestamp == r.timestamp
      ensures stored.id.Some?
    {
      UpsertKeepsValid(table, r);
      UpsertEffect(table, r);
      table := UpsertRows(table, r);
      stored := table.rows[Key(r)];
    }

    /** Delete the row under `k`, if any; report whether one was deleted. */
    method Delete(k: ReactionKey) returns (deleted: bool)
      requires Valid()
      modifies this
      ensures Valid()
      ensures deleted == (k in old(table.rows))
      ensures table == old(table).(rows := old(table.rows) - {k})
    {
      deleted := k in table.rows;
      table := table.(rows := table.rows - {k});
    }
  }
}

/** Shared value types of the bot: optional values, results with an error,
    timestamps, and the JID helpers the model treats as abstract. */
module Values {

  /** An optional value (Python's `None` or a value). */
  datatype Option<T> = None | Some(value: T) {
    function GetOr(default: T): T {
      match this
      case Some(v) => v
      case None => default
    }
  }

  /** A value, or the error that a Python `raise` would have carried. */
  datatype Result<T, E> = Ok(value: T) | Err(error: E)

  /** A point in time. Only its identity and order matter to the model; how the
      source renders it (`strftime`, `isoformat`) is a function parameter. */
  type Timestamp = int

  /** Python truthiness of an optional string: present and non-empty. */
  predicate Truthy(o: Option<string>) {
    o.Some? && o.value != ""
  }

  /** Python's `o or ""` on an optional string. */
  function TextOr(o: Option<string>): (r: string)
    ensures Truthy(o) ==> r == o.value
    ensures !Truthy(o) ==> r == ""
  {
    if o.Some? then o.value else ""
  }

  /** The JID helpers of the WhatsApp layer, which are not part of this model:
      `normalize_jid`, `parse_jid(j).user` and `parse_jid(j).is_group()`. */
  datatype Jids = Jids(
    normalize: string -> string,
    user: string -> string,
    isGroup: string -> bool)

  /** `normalize_jid` leaves a JID it produced as it is. */
  ghost predicate NormalizeIdempotent(jids: Jids) {
    forall j :: jids.normalize(jids.normalize(j)) == jids.normalize(j)
  }

  /** The bot's own JID as the WhatsApp client reports it: `str(jid)`,
      `jid.normalize_str()` and `jid.user`. */
  datatype BotJid = BotJid(full: string, normalized: string, user: string)
}

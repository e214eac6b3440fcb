/** `PhoneMapper`: the process-wide table from JIDs to phone numbers, with the
    list of every phone number seen so far. */
module Phones {
  import opened Values
  import opened Text

  const LidSuffix := "@lid"

  /** The phone number read off a JID that has no mapping: the user part of a
      phone JID (`972...@s.whatsapp.net`); none for a LID (`...@lid`) or for a
      string without `@`. */
  function PhoneFromJid(jid: string): Option<string> {
    if Contains(jid, "@") && !EndsWith(jid, LidSuffix) then Some(Before(jid, "@")) else None
  }

  /** The fallback rule: a phone is derived exactly for JIDs that contain `@` and
      do not end in `@lid`, and it is the text before the first `@`. */
  lemma PhoneFromJidSpec(jid: string)
    ensures PhoneFromJid(jid).Some? <==> Contains(jid, "@") && !EndsWith(jid, LidSuffix)
    ensures PhoneFromJid(jid).Some? ==>
      var p := PhoneFromJid(jid).value;
      p <= jid && |p| < |jid| && jid[|p|] == '@' && forall i | 0 <= i < |p| :: p[i] != '@'
  {
    BeforeChar(jid, '@');
  }

  class PhoneMapper {
    /** `_jid_to_phone`. */
    var jidToPhone: map<string, string>
    /** The keys of `_phone_last_seen`, in insertion order; the times are not modelled. */
    var phonesSeen: seq<string>

    /** Every mapped phone has been seen, and each phone is listed once. */
    ghost predicate Valid()
      reads this
    {
      && (forall j | j in jidToPhone :: jidToPhone[j] in phonesSeen)
      && (forall a, b | 0 <= a < b < |phonesSeen| :: phonesSeen[a] != phonesSeen[b])
    }

    constructor ()
      ensures Valid()
      ensures jidToPhone == map[] && phonesSeen == []
    {
      jidToPhone := map[];
      phonesSeen := [];
    }

    /** `add_mapping`: map `jid` to `phone` and record `phone` as seen. */
    method AddMapping(jid: string, phone: string)
      requires Valid()
      modifies this
      ensures Valid()
      ensures jidToPhone == old(jidToPhone)[jid := phone]
      ensures phonesSeen == if phone in old(phonesSeen) then old(phonesSeen) else old(phonesSeen) + [phone]
      ensures GetPhone(jid) == Some(phone)
      ensures phone in GetAllPhones()
      ensures forall p | p in old(phonesSeen) :: p in GetAllPhones()
      ensures forall j | j != jid :: GetPhone(j) == old(GetPhone(j))
    {
      jidToPhone := jidToPhone[jid := phone];
      if phone !in phonesSeen {
        phonesSeen := phonesSeen + [phone];
      }
    }

    /** `get_phone`: the mapped phone, else the phone read off the JID. */
    function GetPhone(jid: string): (r: Option<string>)
      reads this
      ensures jid in jidToPhone ==> r == Some(jidToPhone[jid])
      ensures jid !in jidToPhone ==> r == PhoneFromJid(jid)
    {
      if jid in jidToPhone then Some(jidToPhone[jid]) else PhoneFromJid(jid)
    }

    /** `get_all_phones`: every phone number seen, in the order first seen. */
    function GetAllPhones(): (phones: seq<string>)
      reads this
      requires Valid()
      ensures forall j | j in jidToPhone :: jidToPhone[j] in phones
    {
      phonesSeen
    }

    /** `clear`: forget every mapping and every seen phone. */
    method Clear()
      modifies this
      ensures Valid()
      ensures GetAllPhones() == []
      ensures forall j :: GetPhone(j) == PhoneFromJid(j)
    {
      jidToPhone := map[];
      phonesSeen := [];
    }
  }

  /** Remapping a JID replaces its phone, yet the old phone stays listed. */
  method RemapKeepsOldPhone(jid: string, first: string, second: string) returns (m: PhoneMapper)
    ensures fresh(m) && m.Valid()
    ensures m.GetPhone(jid) == Some(second)
    ensures first in m.GetAllPhones() && second in m.GetAllPhones()
  {
    m := new PhoneMapper();
    m.AddMapping(jid, first);
    m.AddMapping(jid, second);
  }
}

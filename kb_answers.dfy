/** `KnowledgeBaseAnswers`: answer a question from the knowledge base. The
    question is rephrased and embedded; the topics of the message's group and
    its related community groups are ranked by distance to that embedding;
    the ten closest become the "Related Topics" section of the prompt, whose
    answer is sent back to the chat. */
module KnowledgeBaseAnswers {
  import opened Values
  import opened Text
  import opened Models
  import opened ChatText
  import opened Store
  import opened BaseHandlers

  /** `limit_topics`. */
  const TopicLimit := 10
  const TopicSeparator := "\n---\n"
  const NoTopics := "No related topics found."

  /** An embedding vector; how it is computed is outside the model. */
  type Embedding = seq<real>

  // ---------------------------------------------------------------------------
  // Scope

  /** `select_from`: none without a group; otherwise the group, followed by
      its related community groups when it has community keys. */
  function Scope(group: Option<Group>, related: seq<Group>): (scope: Option<seq<Group>>)
    ensures group.None? <==> scope.None?
    ensures group.Some? ==> |scope.value| >= 1 && scope.value[0] == group.value
    ensures group.Some? ==> scope.value[1..] == if |group.value.communityKeys| > 0 then related else []
  {
    if group.None? then None
    else Some([group.value] + if |group.value.communityKeys| > 0 then related else [])
  }

  /** The JIDs of the scope's groups. */
  function ScopeJids(scope: seq<Group>): (jids: seq<string>)
    ensures |jids| == |scope| && forall i | 0 <= i < |scope| :: jids[i] == scope[i].groupJid
  {
    seq(|scope|, i requires 0 <= i < |scope| => scope[i].groupJid)
  }

  /** `cast(group_jid, String).in_(jids)`: a topic without a group never matches. */
  predicate InScope(t: Topic, jids: seq<string>) {
    t.groupJid.Some? && t.groupJid.value in jids
  }

  /** The topics that satisfy the WHERE clause, in table order. */
  function Filter(topics: seq<Topic>, jids: seq<string>): (r: seq<Topic>)
    ensures |r| <= |topics|
    decreases |topics|
  {
    if |topics| == 0 then []
    else (if InScope(topics[0], jids) then [topics[0]] else []) + Filter(topics[1..], jids)
  }

  /** The filter keeps exactly the in-scope topics, each as often as it occurs. */
  lemma {:induction false} FilterSpec(topics: seq<Topic>, jids: seq<string>)
    ensures forall t :: t in Filter(topics, jids) <==> t in topics && InScope(t, jids)
    ensures multiset(Filter(topics, jids)) <= multiset(topics)
    decreases |topics|
  {
    if |topics| > 0 {
      FilterSpec(topics[1..], jids);
      assert topics == [topics[0]] + topics[1..];
    }
  }

  /** The topics the query ranks: filtered when there is a non-empty scope, all
      topics otherwise (the query has no WHERE clause without a group). */
  function Eligible(topics: seq<Topic>, scope: Option<seq<Group>>): seq<Topic> {
    if scope.Some? && |scope.value| > 0 then Filter(topics, ScopeJids(scope.value)) else topics
  }

  // ---------------------------------------------------------------------------
  // Ranking

  /** The distance of each topic to the query embedding. */
  function Ranking(distance: (Embedding, Topic) -> real, query: Embedding): Topic -> real {
    t => distance(query, t)
  }

  ghost predicate SortedBy(s: seq<Topic>, key: Topic -> real) {
    forall i, j | 0 <= i < j < |s| :: key(s[i]) <= key(s[j])
  }

  function Insert(t: Topic, s: seq<Topic>, key: Topic -> real): (r: seq<Topic>)
    ensures |r| == |s| + 1
    decreases |s|
  {
    if |s| == 0 then [t]
    else if key(t) <= key(s[0]) then [t] + s
    else [s[0]] + Insert(t, s[1..], key)
  }

  /** Inserting adds exactly `t`. */
  lemma {:induction false} InsertPermutes(t: Topic, s: seq<Topic>, key: Topic -> real)
    ensures multiset(Insert(t, s, key)) == multiset(s) + multiset{t}
    decreases |s|
  {
    if |s| > 0 && key(s[0]) < key(t) {
      InsertPermutes(t, s[1..], key);
      assert s == [s[0]] + s[1..];
    }
  }

  /** A lower bound on `t` and on every element of `s` bounds the insertion. */
  lemma {:induction false} InsertBounded(t: Topic, s: seq<Topic>, key: Topic -> real, b: real)
    requires b <= key(t)
    requires forall i | 0 <= i < |s| :: b <= key(s[i])
    ensures forall i | 0 <= i < |Insert(t, s, key)| :: b <= key(Insert(t, s, key)[i])
    decreases |s|
  {
    if |s| > 0 && key(s[0]) < key(t) {
      InsertBounded(t, s[1..], key, b);
    }
  }

  /** Inserting into a sorted sequence keeps it sorted. */
  lemma {:induction false} InsertSorted(t: Topic, s: seq<Topic>, key: Topic -> real)
    requires SortedBy(s, key)
    ensures SortedBy(Insert(t, s, key), key)
    decreases |s|
  {
    if |s| > 0 && key(s[0]) < key(t) {
      InsertSorted(t, s[1..], key);
      InsertBounded(t, s[1..], key, key(s[0]));
    }
  }

  /** `ORDER BY cosine_distance`, as an insertion sort (ties keep table order). */
  function Sort(topics: seq<Topic>, key: Topic -> real): (r: seq<Topic>)
    ensures |r| == |topics|
    decreases |topics|
  {
    if |topics| == 0 then [] else Insert(topics[0], Sort(topics[1..], key), key)
  }

  lemma {:induction false} SortSorted(topics: seq<Topic>, key: Topic -> real)
    ensures SortedBy(Sort(topics, key), key)
    decreases |topics|
  {
    if |topics| > 0 {
      SortSorted(topics[1..], key);
      InsertSorted(topics[0], Sort(topics[1..], key), key);
    }
  }

  lemma {:induction false} SortPermutes(topics: seq<Topic>, key: Topic -> real)
    ensures multiset(Sort(topics, key)) == multiset(topics)
    decreases |topics|
  {
    if |topics| > 0 {
      var rest := Sort(topics[1..], key);
      SortPermutes(topics[1..], key);
      InsertPermutes(topics[0], rest, key);
      assert Sort(topics, key) == Insert(topics[0], rest, key);
      assert topics == [topics[0]] + topics[1..];
      assert multiset(topics) == multiset(topics[1..]) + multiset{topics[0]};
    }
  }

  /** Ordering by distance gives a sorted permutation of the topics. */
  lemma SortSpec(topics: seq<Topic>, key: Topic -> real)
    ensures SortedBy(Sort(topics, key), key)
    ensures multiset(Sort(topics, key)) == multiset(topics)
  {
    SortSorted(topics, key);
    SortPermutes(topics, key);
  }

  /** The retrieval query: the eligible topics ordered by distance, first ten. */
  function Retrieve(topics: seq<Topic>, scope: Option<seq<Group>>, key: Topic -> real): (r: seq<Topic>)
    ensures |r| <= TopicLimit
  {
    var ranked := Sort(Eligible(topics, scope), key);
    ranked[..if |ranked| < TopicLimit then |ranked| else TopicLimit]
  }

  /** The first `n` of a sorted sequence are sorted, and none of the rest is
      closer than any of them. */
  lemma TakeSorted(s: seq<Topic>, n: nat, key: Topic -> real)
    requires SortedBy(s, key) && n <= |s|
    ensures SortedBy(s[..n], key)
    ensures multiset(s[..n]) <= multiset(s)
    ensures forall x, y | x in multiset(s) - multiset(s[..n]) && y in s[..n] :: key(y) <= key(x)
  {
    var r, rest := s[..n], s[n..];
    assert s == r + rest;
    assert multiset(s) == multiset(r) + multiset(rest);
    forall x, y | x in multiset(s) - multiset(r) && y in r
      ensures key(y) <= key(x)
    {
      assert x in rest;
      var i :| 0 <= i < |r| && r[i] == y;
      var j :| 0 <= j < |rest| && rest[j] == x;
      assert s[i] == y && s[n + j] == x;
    }
  }

  /** Retrieval returns ten topics, or all eligible ones when there are fewer,
      in non-decreasing distance, each an eligible topic, and no eligible
      topic left out is closer than any retrieved one. */
  lemma RetrieveRanked(topics: seq<Topic>, scope: Option<seq<Group>>, key: Topic -> real)
    ensures var e := Eligible(topics, scope);
      |Retrieve(topics, scope, key)| == if |e| < TopicLimit then |e| else TopicLimit
    ensures SortedBy(Retrieve(topics, scope, key), key)
    ensures multiset(Retrieve(topics, scope, key)) <= multiset(Eligible(topics, scope))
    ensures forall x, y | x in multiset(Eligible(topics, scope)) - multiset(Retrieve(topics, scope, key))
                          && y in Retrieve(topics, scope, key) :: key(y) <= key(x)
  {
    var e := Eligible(topics, scope);
    SortSpec(e, key);
    var ranked := Sort(e, key);
    TakeSorted(ranked, |Retrieve(topics, scope, key)|, key);
  }

  /** Every retrieved topic is an eligible one. */
  lemma RetrievedAreEligible(topics: seq<Topic>, scope: Option<seq<Group>>, key: Topic -> real)
    ensures forall t | t in Retrieve(topics, scope, key) :: t in Eligible(topics, scope)
  {
    var e := Eligible(topics, scope);
    SortSpec(e, key);
    var ranked := Sort(e, key);
    forall t | t in Retrieve(topics, scope, key)
      ensures t in e
    {
      assert t in ranked;
      assert t in multiset(ranked);
    }
  }

  /** With a non-empty scope, every retrieved topic belongs to one of the
      scope's groups; a topic without a group is never retrieved. */
  lemma RetrieveScoped(topics: seq<Topic>, scope: seq<Group>, key: Topic -> real)
    requires |scope| > 0
    ensures forall t | t in Retrieve(topics, Some(scope), key) :: t.groupJid.Some? && t.groupJid.value in ScopeJids(scope)
  {
    RetrievedAreEligible(topics, Some(scope), key);
    FilterSpec(topics, ScopeJids(scope));
  }

  /** Group isolation: a retrieved topic belongs to the message's own group, or
      to one of the related community groups when the group has community keys. */
  lemma RetrieveIsolated(topics: seq<Topic>, group: Group, related: seq<Group>, key: Topic -> real, t: Topic)
    requires t in Retrieve(topics, Scope(Some(group), related), key)
    ensures t.groupJid.Some?
    ensures t.groupJid.value == group.groupJid
      || (|group.communityKeys| > 0 && exists g | g in related :: g.groupJid == t.groupJid.value)
  {
    var scope := Scope(Some(group), related).value;
    RetrieveScoped(topics, scope, key);
    var jids := ScopeJids(scope);
    var i :| 0 <= i < |jids| && jids[i] == t.groupJid.value;
    if i > 0 {
      assert scope[i] in scope[1..];
    }
  }

  /** `message.group`: the group row stored under the message's group JID,
      none when the message names no group or the row is missing. */
  function MessageGroup(m: Message, groups: map<string, Group>): (g: Option<Group>)
    ensures g.Some? <==> m.groupJid.Some? && m.groupJid.value in groups
    ensures g.Some? ==> g.value == groups[m.groupJid.value]
  {
    if m.groupJid.Some? && m.groupJid.value in groups then Some(groups[m.groupJid.value]) else None
  }

  /** With the groups stored under their own JIDs, a message whose group row
      exists retrieves only topics of its own group or, when that group has
      community keys, of a related group. */
  lemma {:induction false} MessageScopeIsolated(topics: seq<Topic>, groups: map<string, Group>, m: Message,
                                                related: seq<Group>, key: Topic -> real)
    requires forall j | j in groups :: groups[j].groupJid == j
    requires m.groupJid.Some? && m.groupJid.value in groups
    ensures forall t | t in Retrieve(topics, Scope(MessageGroup(m, groups), related), key) ::
      || t.groupJid == m.groupJid
      || (|groups[m.groupJid.value].communityKeys| > 0 && exists g | g in related :: t.groupJid == Some(g.groupJid))
  {
    var group := groups[m.groupJid.value];
    forall t | t in Retrieve(topics, Scope(MessageGroup(m, groups), related), key)
      ensures || t.groupJid == m.groupJid
              || (|group.communityKeys| > 0 && exists g | g in related :: t.groupJid == Some(g.groupJid))
    {
      RetrieveIsolated(topics, group, related, key, t);
      if t.groupJid.value != group.groupJid {
        var g :| g in related && g.groupJid == t.groupJid.value;
        assert t.groupJid == Some(g.groupJid);
      }
    }
  }

  /** Without a group nothing is filtered: retrieval ranks every topic,
      orphaned ones included. */
  lemma RetrieveUnscoped(topics: seq<Topic>, key: Topic -> real)
    ensures |Retrieve(topics, None, key)| == if |topics| < TopicLimit then |topics| else TopicLimit
    ensures multiset(Retrieve(topics, None, key)) <= multiset(topics)
    ensures forall x, y | x in multiset(topics) - multiset(Retrieve(topics, None, key))
                          && y in Retrieve(topics, None, key) :: key(y) <= key(x)
  {
    RetrieveRanked(topics, None, key);
  }

  // ---------------------------------------------------------------------------
  // Prompt

  /** One retrieved topic as the prompt lists it. */
  function TopicEntry(t: Topic): string {
    t.subject + " \n " + t.summary
  }

  /** The formatted topics, one per retrieved topic, in retrieval order. */
  function TopicEntries(topics: seq<Topic>): (entries: seq<string>)
    ensures |entries| == |topics|
    ensures forall i | 0 <= i < |topics| :: entries[i] == topics[i].subject + " \n " + topics[i].summary
  {
    seq(|topics|, i requires 0 <= i < |topics| => TopicEntry(topics[i]))
  }

  /** The logged distance notes, one per retrieved topic. */
  function DistanceNotes(topics: seq<Topic>, key: Topic -> real, show: real -> string): (notes: seq<string>)
    ensures |notes| == |topics|
    ensures forall i | 0 <= i < |topics| :: notes[i] == "topic_distance: " + show(key(topics[i]))
  {
    seq(|topics|, i requires 0 <= i < |topics| => "topic_distance: " + show(key(topics[i])))
  }

  /** The loop over the query rows: one entry and one distance note per topic. */
  method CollectTopics(retrieved: seq<Topic>, key: Topic -> real, show: real -> string)
    returns (similar: seq<string>, distances: seq<string>)
    ensures similar == TopicEntries(retrieved)
    ensures distances == DistanceNotes(retrieved, key, show)
  {
    similar, distances := [], [];
    for i := 0 to |retrieved|
      invariant similar == TopicEntries(retrieved[..i])
      invariant distances == DistanceNotes(retrieved[..i], key, show)
    {
      similar := similar + [TopicEntry(retrieved[i])];
      distances := distances + ["topic_distance: " + show(key(retrieved[i]))];
    }
    assert retrieved[..|retrieved|] == retrieved;
  }

  /** The "Related Topics" section of the prompt. */
  function TopicsSection(entries: seq<string>): string {
    if |entries| > 0 then Join(entries, TopicSeparator) else NoTopics
  }

  /** No topics give exactly the fallback line; otherwise the section is the
      entries joined by `---` lines, and every entry appears in it. */
  lemma TopicsSectionSpec(entries: seq<string>)
    ensures |entries| == 0 ==> TopicsSection(entries) == "No related topics found."
    ensures |entries| > 0 ==> TopicsSection(entries) == Join(entries, "\n---\n")
    ensures forall i | 0 <= i < |entries| :: Contains(TopicsSection(entries), entries[i])
  {
    forall i | 0 <= i < |entries|
      ensures Contains(TopicsSection(entries), entries[i])
    {
      JoinContainsParts(entries, TopicSeparator, i);
    }
  }

  /** The generation prompt: the asker and the original question, the recent
      chat history, and the related topics. */
  function Prompt(sender: string, query: string, chat: string, section: string): string {
    "\n        @" + sender + ": " + query
      + "\n        \n        # Recent chat history:\n        " + chat
      + "\n        \n        # Related Topics:\n        " + section + "\n        "
  }

  /** The prompt carries the question, the history and the topics section. */
  lemma PromptCarries(sender: string, query: string, chat: string, section: string)
    ensures Contains(Prompt(sender, query, chat, section), query)
    ensures Contains(Prompt(sender, query, chat, section), chat)
    ensures Contains(Prompt(sender, query, chat, section), section)
  {
    var p := Prompt(sender, query, chat, section);
    var a := "\n        @" + sender + ": ";
    var b := "\n        \n        # Recent chat history:\n        ";
    var c := "\n        \n        # Related Topics:\n        ";
    var d := "\n        ";
    assert p == a + query + (b + chat + c + section + d);
    ContainsInfix(a, query, b + chat + c + section + d);
    assert p == (a + query + b) + chat + (c + section + d);
    ContainsInfix(a + query + b, chat, c + section + d);
    assert p == (a + query + b + chat + c) + section + d;
    ContainsInfix(a + query + b + chat + c, section, d);
  }

  /** The rephrasing request: the question followed by the recent history. */
  function RephrasePrompt(text: string, chat: string): string {
    text + "\n\n## Recent chat history:\n " + chat
  }

  // ---------------------------------------------------------------------------
  // The answer path

  /** What one answer involved: the rephrased question, the embedding of it,
      the retrieved topics, the generation prompt, the reply and the result of
      sending it. */
  datatype Answered = Answered(
    rephrased: string,
    query: Embedding,
    retrieved: seq<Topic>,
    prompt: string,
    reply: string,
    sent: Result<Message, SendError>)

  class KnowledgeBaseAnswers {
    const handler: BaseHandler

    constructor (handler: BaseHandler)
      ensures this.handler == handler
    {
      this.handler := handler;
    }

    /** `__call__`. The scope starts from the message's group row, and
        `related` stands for its related community groups; `history` is the recent chat history;
        `rephrase`, `embed`, `distance` and `generate` stand for the two
        agents, the embedding service and the cosine distance. */
    method Answer(message: Message, related: seq<Group>, history: seq<Message>,
                  topics: seq<Topic>, formatTime: Timestamp -> string,
                  rephrase: (string, string) -> string, embed: string -> Embedding,
                  distance: (Embedding, Topic) -> real, generate: string -> string,
                  show: real -> string, deliveredId: Option<string>, now: Timestamp)
      returns (r: Option<Answered>)
      requires handler.Valid()
      modifies handler.session, handler.whatsapp
      ensures handler.Valid()
      ensures message.text.None? ==> r.None? && unchanged(handler.session) && unchanged(handler.whatsapp)
      ensures message.text.Some? ==> r.Some?
      ensures r.Some? ==>
        var chat := Render(history, formatTime, handler.jids.user);
        var a := r.value;
        && a.rephrased == rephrase(handler.whatsapp.me.user, RephrasePrompt(message.text.value, chat))
        && a.query == embed(a.rephrased)
        && a.retrieved == Retrieve(topics, Scope(MessageGroup(message, old(handler.session.groups)), related), Ranking(distance, a.query))
        && a.prompt == Prompt(message.senderJid, message.text.value, chat, TopicsSection(TopicEntries(a.retrieved)))
        && a.reply == generate(a.prompt)
      ensures r.Some? && message.groupJid.Some? && message.groupJid.value in old(handler.session.groups) ==>
        forall t | t in r.value.retrieved ::
          || t.groupJid == message.groupJid
          || (|old(handler.session.groups)[message.groupJid.value].communityKeys| > 0
              && exists g | g in related :: t.groupJid == Some(g.groupJid))
      ensures r.Some? ==> (r.value.sent.Ok? <==> message.chatJid != "" && r.value.reply != "")
      ensures r.Some? && r.value.sent.Ok? ==>
        && handler.whatsapp.outbox == old(handler.whatsapp.outbox)
             + [Outgoing(handler.jids.normalize(message.chatJid), r.value.reply, ReplyTo(Some(message.messageId), handler.jids.normalize))]
        && r.value.sent.value == SentMessage(deliveredId, handler.jids.normalize(message.chatJid), handler.whatsapp.me, handler.jids.normalize, r.value.reply, now)
        && handler.session.Contents() == Stored(old(handler.session.Contents()), r.value.sent.value, None, handler.jids.normalize)
      ensures r.Some? && r.value.sent.Err? ==> unchanged(handler.session) && unchanged(handler.whatsapp)
    {
      if message.text.None? {
        return None;
      }
      var chat := Chat2Text(history, formatTime, handler.jids.user);
      var rephrased := rephrase(handler.whatsapp.me.user, RephrasePrompt(message.text.value, chat));
      var query := embed(rephrased);
      var group := MessageGroup(message, handler.session.groups);
      var retrieved := Retrieve(topics, Scope(group, related), Ranking(distance, query));
      if message.groupJid.Some? && message.groupJid.value in handler.session.groups {
        MessageScopeIsolated(topics, handler.session.groups, message, related, Ranking(distance, query));
      }
      var similar, _ := CollectTopics(retrieved, Ranking(distance, query), show);
      var prompt := Prompt(message.senderJid, message.text.value, chat, TopicsSection(similar));
      var reply := generate(prompt);
      var sent := handler.SendMessage(message.chatJid, reply, Some(message.messageId), deliveredId, now);
      r := Some(Answered(rephrased, query, retrieved, prompt, reply, sent));
    }
  }
}

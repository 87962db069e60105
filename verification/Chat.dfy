/** Answering a chat message (app/services/chat_service.py): the cached path of
    `generate_answer` and the event stream of `stream_answer`. */
module Chat {
  import opened BoundedLog
  import opened MockEmbedding
  import opened SemanticCache
  import opened Sse
  import opened Text
  import opened Vectors
  import opened Wrappers

  datatype Role = User | Assistant

  datatype Message = Message(role: Role, content: string, tokens: nat, citations: Option<seq<string>>)

  datatype Settings = Settings(cacheEnabled: bool, threshold: real)

  function UserTurn(message: string): Message { Message(User, message, |Words(message)|, None) }

  /** `citations or None`: an empty list is stored as no citations. */
  function AssistantTurn(content: string, citations: seq<string>): Message {
    Message(Assistant, content, |Words(content)|, if citations == [] then None else Some(citations))
  }

  /** The turn says what the answer says: its text, and its citations unless there are none. */
  predicate Answers(turn: Message, answer: CachedAnswer) {
    && turn.content == answer.answer
    && turn.citations == if answer.citations == [] then None else Some(answer.citations)
  }

  // ----- The cached path -----

  /** What a question finds in the cache. */
  function Hit(lists: Lists<Entry>, workspaceId: nat, vector: Vector, settings: Settings): Option<CachedAnswer> {
    if settings.cacheEnabled then Found(Entries(lists, workspaceId), vector, settings.threshold) else None
  }

  /** The answer given: the cached one, or `produced`, what retrieval and the model
      produce, which may be an exception. */
  function Answer(
    lists: Lists<Entry>, workspaceId: nat, vector: Vector, settings: Settings, produced: Result<CachedAnswer>)
    : Result<CachedAnswer>
  {
    var hit := Hit(lists, workspaceId, vector, settings);
    if hit.Some? then Ok(hit.value) else produced
  }

  function CacheAfter(
      lists: Lists<Entry>, maxEntries: int, workspaceId: nat, vector: Vector, settings: Settings,
      produced: Result<CachedAnswer>)
    : Lists<Entry>
  {
    if settings.cacheEnabled && Hit(lists, workspaceId, vector, settings).None? && produced.Ok?
    then Apply(lists, Store(workspaceId, Entry(vector, produced.value)), maxEntries)
    else lists
  }

  class Conversation {
    const workspaceId: nat
    const cache: SemanticCache
    var messages: seq<Message>

    constructor (workspaceId: nat, cache: SemanticCache)
      ensures this.workspaceId == workspaceId && this.cache == cache && messages == []
    {
      this.workspaceId, this.cache, messages := workspaceId, cache, [];
    }

    /** `embedded` is what the embedder makes of the question, and is used only if the
        cache is enabled. `produced` is consulted only on a miss; `consulted` tells
        whether it was. If either is an exception, the session rolls the user turn back.
        On a hit, `best` is the entry of this workspace that answers. */
    method GenerateAnswer(
        message: string, embedded: Result<Vector>, settings: Settings, produced: Result<CachedAnswer>)
      returns (assistant: Result<Message>, consulted: bool, ghost best: int)
      modifies this, cache
      ensures settings.cacheEnabled && embedded.Err? ==>
        && assistant == Err(embedded.error) && !consulted && cache.byWorkspace == old(cache.byWorkspace)
      // Which answer is given.
      ensures !(settings.cacheEnabled && embedded.Err?) ==>
        var vector := if embedded.Ok? then embedded.value else [];
        var known := if workspaceId in old(cache.byWorkspace) then old(cache.byWorkspace)[workspaceId] else [];
        var floor := SignedSquare(settings.threshold);
        && (consulted <==>
              !settings.cacheEnabled || forall k :: 0 <= k < |known| ==> Score(vector, known[k].vector) < floor)
        && (!consulted ==>
              IsBest(known, vector, floor, best) && assistant.Ok? && Answers(assistant.value, known[best].value))
        && (consulted && produced.Ok? ==> assistant.Ok? && Answers(assistant.value, produced.value))
        && (consulted && produced.Err? ==> assistant == Err(produced.error))
      // What is stored in the conversation.
      ensures assistant.Ok? ==>
        && messages == old(messages) + [Message(User, message, |Words(message)|, None), assistant.value]
        && assistant.value.role == Assistant && assistant.value.tokens == |Words(assistant.value.content)|
      ensures assistant.Err? ==> messages == old(messages)
      // What is stored in the cache: one more entry of this workspace, or nothing.
      ensures forall w: nat :: w != workspaceId ==>
        Entries(cache.byWorkspace, w) == Entries(old(cache.byWorkspace), w)
      ensures cache.byWorkspace == if consulted && settings.cacheEnabled && assistant.Ok?
        then Apply(old(cache.byWorkspace), Store(workspaceId, Entry(embedded.value, produced.value)), cache.maxEntries)
        else old(cache.byWorkspace)
      // The same in terms of the functions the lemmas below are about.
      ensures !(settings.cacheEnabled && embedded.Err?) ==>
        var lists, vector := old(cache.byWorkspace), if embedded.Ok? then embedded.value else [];
        && consulted == Hit(lists, workspaceId, vector, settings).None?
        && cache.byWorkspace == CacheAfter(lists, cache.maxEntries, workspaceId, vector, settings, produced)
        && (assistant.Ok? <==> Answer(lists, workspaceId, vector, settings, produced).Ok?)
    {
      hide Words, Score, SignedSquare, BestIndex;
      best := -1;
      ghost var known := Entries(cache.byWorkspace, workspaceId);
      if settings.cacheEnabled && embedded.Ok? {
        best := BestIndex(known, embedded.value, SignedSquare(settings.threshold));
        BestIndexExact(known, embedded.value, SignedSquare(settings.threshold));
      }
      var added := [UserTurn(message)];
      if settings.cacheEnabled {
        if embedded.Err? {
          return Err(embedded.error), false, best;
        }
        var hit := cache.Lookup(workspaceId, embedded.value, settings.threshold);
        if hit.Some? {
          var turn := AssistantTurn(hit.value.answer, hit.value.citations);
          messages := messages + (added + [turn]);
          return Ok(turn), false, best;
        }
      }
      if produced.Err? {
        return Err(produced.error), true, best;
      }
      if settings.cacheEnabled {
        cache.Store(workspaceId, embedded.value, produced.value);
      }
      var turn := AssistantTurn(produced.value.answer, produced.value.citations);
      messages := messages + (added + [turn]);
      return Ok(turn), true, best;
    }

    /** `broken` means the model's stream raises after the deltas; the session then
        rolls the whole turn back. */
    method StreamAnswer(message: string, deltas: seq<string>, broken: bool, citations: seq<string>, messageId: nat)
      returns (events: seq<Event>)
      modifies this
      ensures events == TokenEvents(deltas) + (if broken then [] else [Done(messageId, citations)])
      ensures messages == old(messages) + if broken then [] else
        [Message(User, message, |Words(message)|, None),
         Message(Assistant, Concat(deltas), |Words(Concat(deltas))|, if citations == [] then None else Some(citations))]
    {
      var added := [UserTurn(message)];
      var parts: seq<string> := [];
      events := [];
      for k := 0 to |deltas|
        invariant parts == deltas[..k] && events == TokenEvents(deltas[..k]) && messages == old(messages)
      {
        assert deltas[..k + 1][..k] == deltas[..k];
        parts := parts + [deltas[k]];
        events := events + [Token(deltas[k])];
      }
      assert deltas[..|deltas|] == deltas;
      if broken {
        assert events + [] == events && messages + [] == messages;
        return;
      }
      var text := Concat(parts);
      added := added + [AssistantTurn(text, citations)];
      messages := messages + added;
      events := events + [Done(messageId, citations)];
    }
  }

  // ----- The cache seen from the history of all stores -----

  /** What a cached answer is, over every history: there is one exactly when some of the
      last `maxEntries` stores of the workspace reaches the threshold, and it is the
      latest of the best among them. */
  lemma {:induction false} HitOverHistory(
      log: seq<LogOp<Entry>>, maxEntries: int, workspaceId: nat, vector: Vector, settings: Settings)
      returns (best: int)
    ensures var recent, floor := Last(Stored(log, workspaceId), maxEntries), SignedSquare(settings.threshold);
      var hit := Hit(Run(log, maxEntries), workspaceId, vector, settings);
      && (hit.Some? <==>
            settings.cacheEnabled && exists k :: 0 <= k < |recent| && Score(vector, recent[k].vector) >= floor)
      && (hit.Some? ==> IsBest(recent, vector, floor, best) && hit.value == recent[best].value)
  {
    hide Score, SignedSquare, BestIndex, Run;
    BoundedIsTailOfLog(log, maxEntries, workspaceId);
    var recent := Last(Stored(log, workspaceId), maxEntries);
    best := BestIndex(recent, vector, SignedSquare(settings.threshold));
    BestIndexExact(recent, vector, SignedSquare(settings.threshold));
  }

  /** Other workspaces' histories change neither the answer nor what becomes of the own
      entries, and a question leaves their entries alone. */
  lemma {:induction false} OwnHistoryOnly(
      log: seq<LogOp<Entry>>, other: seq<LogOp<Entry>>, maxEntries: int, workspaceId: nat, vector: Vector,
      settings: Settings, produced: Result<CachedAnswer>)
    requires Stored(log, workspaceId) == Stored(other, workspaceId)
    ensures var a, b := Run(log, maxEntries), Run(other, maxEntries);
      && Hit(a, workspaceId, vector, settings) == Hit(b, workspaceId, vector, settings)
      && Answer(a, workspaceId, vector, settings, produced) == Answer(b, workspaceId, vector, settings, produced)
      && Entries(CacheAfter(a, maxEntries, workspaceId, vector, settings, produced), workspaceId)
         == Entries(CacheAfter(b, maxEntries, workspaceId, vector, settings, produced), workspaceId)
      && forall w: nat :: w != workspaceId ==>
           Entries(CacheAfter(a, maxEntries, workspaceId, vector, settings, produced), w) == Entries(a, w)
  {
    hide Found, Run, Stored;
    BoundedIsTailOfLog(log, maxEntries, workspaceId);
    BoundedIsTailOfLog(other, maxEntries, workspaceId);
  }

  /** A question asked after any history of stores and clears is answered from the cache
      exactly when one of the last `maxEntries` stores of its workspace reaches the
      threshold, with the latest best of those; otherwise the history grows by the
      answer produced. */
  method AskAfter(
      conversation: Conversation, ghost log: seq<LogOp<Entry>>, message: string, vector: Vector, settings: Settings,
      produced: Result<CachedAnswer>)
    returns (assistant: Result<Message>, consulted: bool, ghost best: int)
    requires settings.cacheEnabled && conversation.cache.byWorkspace == Run(log, conversation.cache.maxEntries)
    modifies conversation, conversation.cache
    ensures var maxEntries := conversation.cache.maxEntries;
      var recent, floor := Last(Stored(log, conversation.workspaceId), maxEntries), SignedSquare(settings.threshold);
      && (consulted <==> forall k :: 0 <= k < |recent| ==> Score(vector, recent[k].vector) < floor)
      && (!consulted ==>
            && IsBest(recent, vector, floor, best) && assistant.Ok?
            && Answers(assistant.value, recent[best].value))
      && conversation.cache.byWorkspace
         == Run(log + (if consulted && produced.Ok?
                       then [LogOp.Store(conversation.workspaceId, Entry(vector, produced.value))] else []), maxEntries)
  {
    hide Score, SignedSquare, IsBest, Stored, Words;
    BoundedIsTailOfLog(log, conversation.cache.maxEntries, conversation.workspaceId);
    assistant, consulted, best := conversation.GenerateAnswer(message, Ok(vector), settings, produced);
    assert log + [] == log;
    if consulted && produced.Ok? {
      var store := LogOp.Store(conversation.workspaceId, Entry(vector, produced.value));
      assert (log + [store])[..|log|] == log;
    }
  }

  /** Asking again with the same vector gives the same answer and, if the first
      answer could be cached, without calling the model, whatever happened before. */
  lemma {:induction false} AskingAgain(
      log: seq<LogOp<Entry>>, maxEntries: int, workspaceId: nat, vector: Vector, settings: Settings,
      produced: Result<CachedAnswer>, other: Result<CachedAnswer>)
    requires settings.cacheEnabled
    ensures var lists := Run(log, maxEntries);
      var after := CacheAfter(lists, maxEntries, workspaceId, vector, settings, produced);
      var first := Answer(lists, workspaceId, vector, settings, produced);
      var cacheable := maxEntries >= 1 && settings.threshold <= SelfScore(vector);
      && (Hit(after, workspaceId, vector, settings).None?
          <==> Hit(lists, workspaceId, vector, settings).None? && !(cacheable && produced.Ok?))
      && (cacheable && first.Ok? ==> Answer(after, workspaceId, vector, settings, other) == first)
  {
    hide Found, SelfScore;
    var lists := Run(log, maxEntries);
    if Hit(lists, workspaceId, vector, settings).None? && produced.Ok? {
      var store := Store(workspaceId, Entry(vector, produced.value));
      assert (log + [store])[..|log|] == log;
      assert Run(log + [store], maxEntries)
          == CacheAfter(lists, maxEntries, workspaceId, vector, settings, produced);
      ReadYourWrites(log, maxEntries, workspaceId, vector, produced.value, settings.threshold);
    }
  }

  /** Rewordings share a cached answer: a message with the same tokens in another
      order is answered from the cache, provided their vector is not zero. */
  lemma {:induction false} RewordingHitsCache(
      h: Hashing, dimension: nat, sqrt: real -> real, message: string, reworded: string,
      log: seq<LogOp<Entry>>, maxEntries: int, workspaceId: nat, settings: Settings,
      produced: CachedAnswer, other: Result<CachedAnswer>)
    requires dimension > 0 && ExactRoot(sqrt) && multiset(Tokens(message)) == multiset(Tokens(reworded))
    requires settings.cacheEnabled && maxEntries >= 1 && settings.threshold <= 1.0
    requires exists i :: 0 <= i < dimension && Embedding(h, message, dimension, sqrt)[i] != 0.0
    ensures var lists := Run(log, maxEntries);
      var after := CacheAfter(lists, maxEntries, workspaceId, Embedding(h, message, dimension, sqrt), settings,
                              Ok(produced));
      && Hit(after, workspaceId, Embedding(h, reworded, dimension, sqrt), settings).Some?
      && Answer(after, workspaceId, Embedding(h, reworded, dimension, sqrt), settings, other)
         == Answer(lists, workspaceId, Embedding(h, message, dimension, sqrt), settings, Ok(produced))
  {
    hide Tokens, Embedding, Found, CacheAfter;
    UnitOrZero(h, message, dimension, sqrt);
    RewordingsEmbedAlike(h, message, reworded, dimension, sqrt);
    AskingAgain(log, maxEntries, workspaceId, Embedding(h, message, dimension, sqrt), settings, Ok(produced), other);
  }

  // ----- The streamed path -----

  function TokenEvents(deltas: seq<string>): (r: seq<Event>)
    ensures |r| == |deltas| && forall k :: 0 <= k < |r| ==> r[k] == Token(deltas[k])
  {
    seq(|deltas|, k requires 0 <= k < |deltas| => Token(deltas[k]))
  }

  lemma {:induction false} TokenText(deltas: seq<string>)
    ensures TextOf(TokenEvents(deltas)) == Concat(deltas) && CitationsOf(TokenEvents(deltas)) == []
    decreases |deltas|
  {
    if deltas != [] {
      var n := |deltas| - 1;
      TokenText(deltas[..n]);
      assert TokenEvents(deltas)[..n] == TokenEvents(deltas[..n]);
    }
  }

  lemma StreamText(deltas: seq<string>, citations: seq<string>, messageId: nat)
    ensures var events := TokenEvents(deltas) + [Done(messageId, citations)];
      && TextOf(events) == Concat(deltas)
      && CitationsOf(events) == if citations == [] then [] else [citations]
  {
    TokenText(deltas);
    var tokens := TokenEvents(deltas);
    assert (tokens + [Done(messageId, citations)])[..|tokens|] == tokens;
  }

  /** From model to screen: however the response is cut into reads, the browser
      always shows a prefix of the answer that gets stored, and in the end exactly
      that answer, with its citations rendered once. */
  lemma {:induction false} ScreenShowsStoredAnswer(
      codec: Codec, deltas: seq<string>, citations: seq<string>, messageId: nat, pieces: seq<string>, n: nat)
    requires WellBehaved(codec) && n <= |pieces|
    requires Concat(pieces) == Print(codec, TokenEvents(deltas) + [Done(messageId, citations)])
    ensures var stored := AssistantTurn(Concat(deltas), citations);
      && TextOf(Handled(codec, Concat(pieces[..n]))) <= stored.content
      && TextOf(Handled(codec, Concat(pieces))) == stored.content
      && CitationsOf(Handled(codec, Concat(pieces))) 
         == (if stored.citations.None? then [] else [stored.citations.value])
  {
    hide WellBehaved, Print, Handled;
    StreamRoundTrip(codec, TokenEvents(deltas) + [Done(messageId, citations)], pieces, n);
    StreamText(deltas, citations, messageId);
  }

  /** If the model breaks off, nothing is stored and the screen still only ever
      shows a prefix of what the model said. */
  lemma {:induction false} BrokenStreamShowsPrefix(codec: Codec, deltas: seq<string>, pieces: seq<string>, n: nat)
    requires WellBehaved(codec) && n <= |pieces|
    requires Concat(pieces) == Print(codec, TokenEvents(deltas))
    ensures TextOf(Handled(codec, Concat(pieces[..n]))) <= Concat(deltas)
    ensures CitationsOf(Handled(codec, Concat(pieces))) == []
  {
    hide WellBehaved, Print, Handled;
    StreamRoundTrip(codec, TokenEvents(deltas), pieces, n);
    TokenText(deltas);
  }

  // ----- One streamed exchange -----

  /** A response body cut into reads of the given lengths; what is left comes last. */
  function Reads(body: string, lengths: seq<nat>): (pieces: seq<string>)
    ensures Concat(pieces) == body
    decreases |lengths|
  {
    if lengths == [] then
      OnePiece(body);
      [body]
    else
      var n := |lengths| - 1;
      var keep := if lengths[n] < |body| then |body| - lengths[n] else 0;
      var before := Reads(body[..keep], lengths[..n]);
      assert (before + [body[keep..]])[..|before|] == before;
      assert body[..keep] + body[keep..] == body;
      before + [body[keep..]]
  }

  lemma OnePiece(body: string)
    ensures Concat([body]) == body
  {
    assert [body][..0] == [];
    assert Concat([]) == "";
  }

  /** Server, network and browser together, for any cut of the response: at every
      moment the screen shows a prefix of what the model said, and once the stream is
      closed it shows exactly the stored assistant turn and its citations. */
  method Exchange(
      conversation: Conversation, client: Client, message: string, deltas: seq<string>, broken: bool,
      citations: seq<string>, messageId: nat, lengths: seq<nat>)
    returns (leftover: string, ghost shown: seq<string>)
    requires WellBehaved(client.codec) && client.text == "" && client.rendered == []
    modifies conversation, client
    ensures leftover == "" && shown != []
    ensures forall n :: 0 <= n < |shown| ==> shown[n] <= Concat(deltas)
    ensures shown[|shown| - 1] == client.text == Concat(deltas)
    ensures broken ==> conversation.messages == old(conversation.messages) && client.rendered == []
    ensures !broken ==>
      var stored := AssistantTurn(Concat(deltas), citations);
      && conversation.messages == old(conversation.messages) + [UserTurn(message), stored]
      && client.text == stored.content
      && client.rendered 
         == (if stored.citations.None? then [] else [stored.citations.value])
  {
    hide WellBehaved, Print, Handled, Concat, TextOf, CitationsOf, Deframe;
    var codec := client.codec;
    var events := conversation.StreamAnswer(message, deltas, broken, citations, messageId);
    var pieces := Reads(Print(codec, events), lengths);
    leftover, shown := client.Send(pieces, Closed);
    assert pieces[..|pieces|] == pieces;
    assert TokenEvents(deltas) + [] == TokenEvents(deltas);
    TokenText(deltas);
    StreamText(deltas, citations, messageId);
    forall n | 0 <= n <= |pieces| ensures shown[n] <= TextOf(events) {
      StreamRoundTrip(codec, events, pieces, n);
    }
    StreamRoundTrip(codec, events, pieces, |pieces|);
  }
}

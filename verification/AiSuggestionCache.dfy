/** The AI provider's response cache: looked up under a lock before a request, filled under the lock after it, emptied
    whenever the credential changes. Any number of requests may be in flight in between. */
module AiSuggestionCache {
  import opened Optional

  datatype Provider = DeepSeek | OpenAI | SiliconFlow | Groq | Custom
  datatype Config = Config(provider: Provider, endpoint: string, model: string, prompt: string, limit: nat,
                           token: string)
  datatype Query = Query(segments: seq<string>, scheme: int, identity: string, cacheKey: string)

  /** Everything a suggestion is asked with; a `char` is one byte. */
  datatype Asked = Asked(query: Query, context: string, config: Config)

  const CONTEXT_BYTES: nat := 2048
  const PROMPT_BYTES: nat := 8192
  const SEGMENTS: nat := 32
  const SEGMENT_BYTES: nat := 64
  const ENTRIES: nat := 128

  // ---------------------------------------------------------------------------------------------------- bounded text

  /** The second and later bytes of a UTF-8 character. */
  predicate Continuation(c: char) {
    (c as int / 64) % 4 == 2
  }

  /** A prefix of this length does not cut a character. */
  predicate Boundary(value: string, end: nat) {
    end == 0 || end >= |value| || !Continuation(value[end])
  }

  function Cut(value: string, end: nat): (k: nat)
    requires end < |value|
    ensures k <= end && Boundary(value, k)
    ensures forall e: nat :: k < e <= end ==> !Boundary(value, e)
  {
    if Boundary(value, end) then end else Cut(value, end - 1)
  }

  function Bounded(value: string, maximum: nat): string {
    if |value| <= maximum then value else value[..Cut(value, maximum)]
  }

  /** The longest prefix of at most `maximum` bytes that cuts no character. */
  method BoundedUtf8(value: string, maximum: nat) returns (r: string)
    ensures r == Bounded(value, maximum)
    ensures |r| <= maximum && r <= value && Boundary(value, |r|)
    ensures forall e: nat :: |r| < e <= maximum && e <= |value| ==> !Boundary(value, e)
  {
    if |value| <= maximum { return value; }
    var end := maximum;
    while end > 0 && Continuation(value[end])
      invariant 0 <= end <= maximum && Cut(value, maximum) == Cut(value, end)
    {
      end := end - 1;
    }
    r := value[..end];
  }

  // ------------------------------------------------------------------------------------------------ keys and requests

  function DefaultEndpoint(p: Provider): string {
    match p
    case DeepSeek => "https://api.deepseek.com/chat/completions"
    case OpenAI => "https://api.openai.com/v1/chat/completions"
    case SiliconFlow => "https://api.siliconflow.cn/v1/chat/completions"
    case Groq => "https://api.groq.com/openai/v1/chat/completions"
    case Custom => ""
  }

  function DefaultModel(p: Provider): string {
    match p
    case DeepSeek => "deepseek-v4-flash"
    case OpenAI => "gpt-4o-mini"
    case SiliconFlow => "Qwen/Qwen3-8B"
    case Groq => "openai/gpt-oss-120b"
    case Custom => ""
  }

  function ProviderId(p: Provider): string {
    match p
    case DeepSeek => "deepseek"
    case OpenAI => "openai"
    case SiliconFlow => "siliconflow"
    case Groq => "groq"
    case Custom => "custom"
  }

  function Clamped(limit: nat): nat {
    if limit < 1 then 1 else if limit > 10 then 10 else limit
  }

  function BoundedSegments(segments: seq<string>, n: nat): seq<string>
    requires n <= |segments|
  {
    if n == 0 then [] else BoundedSegments(segments, n - 1) + [Bounded(segments[n - 1], SEGMENT_BYTES)]
  }

  function SentSegments(q: Query): seq<string> {
    BoundedSegments(q.segments, if |q.segments| < SEGMENTS then |q.segments| else SEGMENTS)
  }

  function Endpoint(c: Config): string {
    if c.endpoint == "" then DefaultEndpoint(c.provider) else c.endpoint
  }

  function Model(c: Config): string {
    if c.model == "" then DefaultModel(c.provider) else c.model
  }

  function Prompt(w: Wire, c: Config): string {
    Bounded(if c.prompt == "" then w.defaultPrompt else c.prompt, PROMPT_BYTES)
  }

  /** The members of the key object. */
  datatype Key = Key(provider: string, endpoint: string, model: string, prompt: string, limit: nat, scheme: int,
                     identity: string, query: string, segments: seq<string>, context: string)

  /** What goes over the wire, apart from the credential and the timeouts. */
  datatype Request = Request(url: string, model: string, prompt: string, segments: seq<string>, context: string,
                             limit: nat, thinkingDisabled: bool)

  /** JSON serialisation of a key, and the built-in prompt. */
  datatype Wire = Wire(serialize: Key -> string, defaultPrompt: string)

  ghost predicate Injective(w: Wire) {
    forall a, b {:trigger w.serialize(a), w.serialize(b)} :: w.serialize(a) == w.serialize(b) ==> a == b
  }

  function KeyOf(w: Wire, a: Asked): Key {
    Key(ProviderId(a.config.provider), Endpoint(a.config), Model(a.config), Prompt(w, a.config),
        Clamped(a.config.limit),
        a.query.scheme, a.query.identity, a.query.cacheKey, SentSegments(a.query), Bounded(a.context, CONTEXT_BYTES))
  }

  function CacheKey(w: Wire, a: Asked): string {
    w.serialize(KeyOf(w, a))
  }

  function RequestOf(w: Wire, a: Asked): Request {
    Request(Endpoint(a.config), Model(a.config), Prompt(w, a.config), SentSegments(a.query),
            Bounded(a.context, CONTEXT_BYTES), Clamped(a.config.limit), a.config.provider.DeepSeek?)
  }

  /** Equal cache keys are keys of the same request, byte for byte. */
  lemma EqualKeysSameRequest(w: Wire, a: Asked, b: Asked)
    requires Injective(w) && CacheKey(w, a) == CacheKey(w, b)
    ensures RequestOf(w, a) == RequestOf(w, b)
  {
    assert KeyOf(w, a) == KeyOf(w, b);
    assert |"deepseek"| == 8 && |"openai"| == 6 && |"siliconflow"| == 11 && |"groq"| == 4 && |"custom"| == 6;
  }

  lemma {:induction false} SegmentsAre(segments: seq<string>, n: nat)
    requires n <= |segments|
    ensures |BoundedSegments(segments, n)| == n
    ensures forall i :: 0 <= i < n ==> BoundedSegments(segments, n)[i] == Bounded(segments[i], 64)
  {
    if n > 0 {
      SegmentsAre(segments, n - 1);
    }
  }

  lemma BoundedIsPrefix(value: string, maximum: nat)
    ensures Bounded(value, maximum) <= value && |Bounded(value, maximum)| <= maximum
    ensures |value| <= maximum ==> Bounded(value, maximum) == value
  {
  }

  /** What is asked: the configured endpoint, model and prompt, or the provider's own; at most 32 segments of at most 64
      bytes; at most 2048 bytes of context and 8192 of prompt; one to ten candidates; and only DeepSeek is told not to
      think. */
  lemma RequestIs(w: Wire, a: Asked)
    ensures var r := RequestOf(w, a);
            && r.url == (if a.config.endpoint != "" then a.config.endpoint else DefaultEndpoint(a.config.provider))
            && r.model == (if a.config.model != "" then a.config.model else DefaultModel(a.config.provider))
            && r.prompt <= (if a.config.prompt != "" then a.config.prompt else w.defaultPrompt) && |r.prompt| <= 8192
            && r.context <= a.context && |r.context| <= 2048 && (|a.context| <= 2048 ==> r.context == a.context)
            && |r.segments| == (if |a.query.segments| <= 32 then |a.query.segments| else 32)
            && (forall i :: 0 <= i < |r.segments| ==> r.segments[i] <= a.query.segments[i] && |r.segments[i]| <= 64
                                                      && (|a.query.segments[i]| <= 64 ==>
                                                          r.segments[i] == a.query.segments[i]))
            && 1 <= r.limit <= 10 && (1 <= a.config.limit <= 10 ==> r.limit == a.config.limit)
            && (a.config.limit > 10 ==> r.limit == 10)
            && (r.thinkingDisabled <==> a.config.provider == DeepSeek)
  {
    var n := if |a.query.segments| < SEGMENTS then |a.query.segments| else SEGMENTS;
    SegmentsAre(a.query.segments, n);
    BoundedIsPrefix(a.context, 2048);
    BoundedIsPrefix(if a.config.prompt == "" then w.defaultPrompt else a.config.prompt, 8192);
    forall i | 0 <= i < n ensures RequestOf(w, a).segments[i] == Bounded(a.query.segments[i], 64) {
      BoundedIsPrefix(a.query.segments[i], 64);
    }
  }

  /** Every provider but the custom one has an HTTPS endpoint and a model of its own; the custom one has neither. */
  lemma DefaultsDiffer(p: Provider, q: Provider)
    ensures p.Custom? <==> DefaultEndpoint(p) == ""
    ensures p.Custom? <==> DefaultModel(p) == ""
    ensures !p.Custom? ==> "https://" <= DefaultEndpoint(p)
    ensures DefaultModel(p) == DefaultModel(q) <==> p == q
  {
    assert |"deepseek-v4-flash"| == 17 && |"gpt-4o-mini"| == 11 && |"Qwen/Qwen3-8B"| == 13
      && |"openai/gpt-oss-120b"| == 19;
  }

  // --------------------------------------------------------------------------------------------------------- the cache

  /** The server answered `asked` with `candidate`, under the credential of this epoch. */
  datatype Answer = Answer(epoch: nat, asked: Asked, candidate: string)

  predicate NoRepeats(s: seq<string>) {
    forall i, j :: 0 <= i < j < |s| ==> s[i] != s[j]
  }

  /** The order queue lists exactly the keys, once each. */
  ghost predicate Queued(order: seq<string>, entries: map<string, string>) {
    NoRepeats(order) && forall k :: k in order <==> k in entries
  }

  predicate Backs(w: Wire, answered: set<Answer>, epoch: nat, key: string, candidate: string) {
    exists a :: a in answered && a.epoch == epoch && CacheKey(w, a.asked) == key && a.candidate == candidate
  }

  predicate AllBacked(w: Wire, answered: set<Answer>, epoch: nat, entries: map<string, string>) {
    forall k :: k in entries ==> Backs(w, answered, epoch, k, entries[k])
  }

  lemma DropOldest(order: seq<string>, entries: map<string, string>)
    requires Queued(order, entries) && order != []
    ensures Queued(order[1..], entries - {order[0]})
  {
    assert order == [order[0]] + order[1..];
  }

  lemma AddNewest(order: seq<string>, entries: map<string, string>, key: string, candidate: string)
    requires Queued(order, entries) && key !in entries
    ensures Queued(order + [key], entries[key := candidate])
  {
    var order' := order + [key];
    forall i, j | 0 <= i < j < |order'| ensures order'[i] != order'[j] {
      if j == |order| { assert order[i] in order; }
    }
  }

  lemma MoreAnswers(w: Wire, answered: set<Answer>, a: Answer, epoch: nat, entries: map<string, string>)
    requires AllBacked(w, answered, epoch, entries)
    ensures AllBacked(w, answered + {a}, epoch, entries)
    ensures a.epoch == epoch ==> AllBacked(w, answered + {a}, epoch, entries[CacheKey(w, a.asked) := a.candidate])
  {
    hide CacheKey;
    forall k | k in entries ensures Backs(w, answered + {a}, epoch, k, entries[k]) {
      assert Backs(w, answered, epoch, k, entries[k]);
      var b :| b in answered && b.epoch == epoch && CacheKey(w, b.asked) == k && b.candidate == entries[k];
      assert b in answered + {a};
    }
    assert a in answered + {a};
  }

  /** First in, first out: what is left of the order queue when a new key needs room. */
  function Kept(order: seq<string>): seq<string> {
    if |order| >= ENTRIES then order[|order| - (ENTRIES - 1)..] else order
  }

  /** The entries of the keys that are left. */
  function Restrict(entries: map<string, string>, order: seq<string>): (kept: map<string, string>)
    ensures forall k :: k in kept ==> k in entries
  {
    map k | k in entries && k in order :: entries[k]
  }

  lemma KeptStep(order: seq<string>, entries: map<string, string>, all: map<string, string>)
    requires |order| >= ENTRIES && Queued(order, entries) && entries == Restrict(all, order)
    ensures Kept(order[1..]) == Kept(order)
    ensures entries - {order[0]} == Restrict(all, order[1..])
  {
    DropOldest(order, entries);
  }

  class Cache {
    const wire: Wire
    var entries: map<string, string>
    var order: seq<string>
    var credential: string
    var epoch: nat
    ghost var answered: set<Answer>
    ghost var tokens: map<nat, string>

    /** At most 128 entries, each of them an answer that came in under the current credential. */
    ghost predicate Valid()
      reads this
    {
      && |order| <= ENTRIES && Queued(order, entries)
      && AllBacked(wire, answered, epoch, entries)
      && epoch in tokens && tokens[epoch] == credential && (forall e :: e in tokens ==> e <= epoch)
    }

    constructor (wire: Wire)
      ensures Valid() && entries == map[] && answered == {}
    {
      this.wire := wire;
      entries, order, credential, epoch := map[], [], "", 0;
      answered, tokens := {}, map[0 := ""];
    }

    /** The locked section before the request. A hit is an answer this process got earlier, under the same credential,
        to exactly the request it would have sent now. */
    method Open(asked: Asked) returns (hit: Option<string>, current: nat)
      requires Valid() && Injective(wire)
      modifies this
      ensures Valid() && answered == old(answered)
      ensures credential == asked.config.token && current == epoch
      ensures forall e :: e in old(tokens) ==> e in tokens && tokens[e] == old(tokens)[e]
      ensures current in tokens && tokens[current] == asked.config.token
      ensures hit.Some? ==> exists a :: a in answered && a.epoch == current && a.candidate == hit.value
                                        && RequestOf(wire, a.asked) == RequestOf(wire, asked)
      ensures old(credential) != asked.config.token ==> entries == map[] && epoch == old(epoch) + 1
      ensures old(credential) == asked.config.token ==>
        entries == old(entries) && order == old(order) && epoch == old(epoch)
      ensures hit == if CacheKey(wire, asked) in entries then Some(entries[CacheKey(wire, asked)]) else None
    {
      if credential != asked.config.token {
        entries, order, credential := map[], [], asked.config.token;
        epoch := epoch + 1;
        tokens := tokens[epoch := credential];
      }
      current := epoch;
      var key := CacheKey(wire, asked);
      if key !in entries { return None, current; }
      hit := Some(entries[key]);
      assert Backs(wire, answered, epoch, key, entries[key]);
      ghost var a :| a in answered && a.epoch == epoch && CacheKey(wire, a.asked) == key && a.candidate == entries[key];
      EqualKeysSameRequest(wire, a.asked, asked);
    }

    /** Make room: drop the oldest keys, and no others. */
    method Evict()
      requires Valid()
      modifies this`entries, this`order
      ensures Valid() && |order| < ENTRIES
      ensures order == Kept(old(order)) && entries == Restrict(old(entries), order)
    {
      hide Queued, Backs, Kept, Restrict;
      AllKept(order, entries);
      while |order| >= ENTRIES
        invariant Valid() && Kept(order) == Kept(old(order)) && entries == Restrict(old(entries), order)
      {
        DropOldest(order, entries);
        KeptStep(order, entries, old(entries));
        entries := entries - {order[0]};
        order := order[1..];
      }
      NothingDropped(order);
    }

    /** The locked section after a request made in epoch `current` was answered: a response to a replaced credential is
        handed out but never cached. */
    method Close(asked: Asked, current: nat, candidate: string)
      requires Valid() && current in tokens && tokens[current] == asked.config.token
      modifies this
      ensures Valid() && tokens == old(tokens) && epoch == old(epoch)
      ensures answered == old(answered) + {Answer(current, asked, candidate)}
      ensures current != epoch ==> entries == old(entries) && order == old(order)
      ensures current == epoch ==>
        var key := CacheKey(wire, asked);
        && order == (if key in old(entries) then old(order) else Kept(old(order)) + [key])
        && entries ==
          (if key in old(entries) then old(entries) else Restrict(old(entries), Kept(old(order))))[key := candidate]
    {
      hide Queued, AllBacked, CacheKey, Kept, Restrict;
      if epoch != current || credential != asked.config.token {
        MoreAnswers(wire, answered, Answer(current, asked, candidate), epoch, entries);
        answered := answered + {Answer(current, asked, candidate)};
        return;
      }
      var key := CacheKey(wire, asked);
      if key !in entries {
        Evict();
        AddNewest(order, entries, key, candidate);
        order := order + [key];
      } else {
        SameKeys(order, entries, key, candidate);
      }
      MoreAnswers(wire, answered, Answer(current, asked, candidate), epoch, entries);
      entries := entries[key := candidate];
      answered := answered + {Answer(current, asked, candidate)};
    }
  }

  lemma AllKept(order: seq<string>, entries: map<string, string>)
    requires Queued(order, entries)
    ensures entries == Restrict(entries, order)
  {
  }

  lemma NothingDropped(order: seq<string>)
    requires |order| < ENTRIES
    ensures Kept(order) == order
  {
  }

  lemma SameKeys(order: seq<string>, entries: map<string, string>, key: string, candidate: string)
    requires Queued(order, entries) && key in entries
    ensures Queued(order, entries[key := candidate])
  {
  }

  // ------------------------------------------------------------------------------------------------ concurrent fetches

  datatype Flight = Flight(asked: Asked, epoch: nat)
  datatype Turn = Begin(asked: Asked) | Answered(flight: nat, candidate: string) | Abandoned(flight: nat)

  ghost predicate Issued(cache: Cache, flights: seq<Flight>)
    reads cache
  {
    forall i :: 0 <= i < |flights| ==>
      flights[i].epoch in cache.tokens && cache.tokens[flights[i].epoch] == flights[i].asked.config.token
  }

  /** For every schedule of fetches - beginning, being answered in any order, failing, under changing credentials - the
      cache keeps its invariant. */
  method Schedule(cache: Cache, turns: seq<Turn>)
    requires cache.Valid() && Injective(cache.wire)
    modifies cache
    ensures cache.Valid() && |cache.order| <= 128 && cache.entries.Keys == set k | k in cache.order
  {
    var flights: seq<Flight> := [];
    var i := 0;
    while i < |turns|
      invariant 0 <= i <= |turns| && cache.Valid() && Issued(cache, flights)
    {
      match turns[i] {
        case Begin(asked) =>
          var hit, epoch := cache.Open(asked);
          if hit.None? { flights := flights + [Flight(asked, epoch)]; }
        case Answered(f, candidate) =>
          if f < |flights| {
            cache.Close(flights[f].asked, flights[f].epoch, candidate);
            flights := flights[..f] + flights[f + 1..];
          }
        case Abandoned(f) =>
          if f < |flights| { flights := flights[..f] + flights[f + 1..]; }
      }
      i := i + 1;
    }
  }
}

/**
 * The AI chat gateway behind `POST /chat`: provider alias normalisation, the
 * provider sequence, chat-history normalisation, the three provider adapters
 * (their HTTP exchange abstracted to an outcome) and the sequential failover
 * that answers with the first provider whose call does not fail.
 */
module Gateway {
  import opened Wrappers
  import opened Strings
  import opened Js

  // ---------------------------------------------------------------------------
  // normalizeProvider, getProviderSequence
  // ---------------------------------------------------------------------------

  datatype Provider = Claude | OpenAI | Gemini {
    /** The provider's name as the server reports it. */
    function Name(): string {
      match this
      case Claude => "claude"
      case OpenAI => "openai"
      case Gemini => "gemini"
    }

    /** The name used in the adapter's own error messages. */
    function Label(): string {
      match this
      case Claude => "Claude"
      case OpenAI => "OpenAI"
      case Gemini => "Gemini"
    }
  }

  /** A configured preference: one pinned provider, or automatic choice. */
  datatype Preference = Auto | Pinned(provider: Provider)

  /** `normalizeProvider`: the provider an alias names, case-insensitively,
      and `Auto` for anything else. */
  function NormalizeProvider(value: string): (r: Preference)
    ensures r == Pinned(OpenAI) <==> ToLower(value) in {"openai", "gpt", "chatgpt"}
    ensures r == Pinned(Claude) <==> ToLower(value) in {"claude", "anthropic"}
    ensures r == Pinned(Gemini) <==> ToLower(value) in {"gemini", "google"}
  {
    var key := ToLower(value);
    if key in {"openai", "gpt", "chatgpt"} then Pinned(OpenAI)
    else if key in {"claude", "anthropic"} then Pinned(Claude)
    else if key in {"gemini", "google"} then Pinned(Gemini)
    else Auto
  }

  /** Every provider's own name selects it: names and normalisation agree. */
  lemma NormalizeProviderName(p: Provider)
    ensures NormalizeProvider(p.Name()) == Pinned(p)
  {
    assert ToLower(p.Name()) == p.Name();
  }

  /** `getProviderSequence` for the `AI_PROVIDER` setting (default `auto`). */
  function ProviderSequence(aiProvider: string): (r: seq<Provider>)
    ensures |r| >= 1
    ensures forall i, j :: 0 <= i < j < |r| ==> r[i] != r[j]
    ensures NormalizeProvider(aiProvider).Pinned? ==> r == [NormalizeProvider(aiProvider).provider]
    ensures NormalizeProvider(aiProvider) == Auto ==> r == [Claude, OpenAI, Gemini]
  {
    ToLowerIdempotent(aiProvider);
    match NormalizeProvider(ToLower(aiProvider))
    case Pinned(p) => [p]
    case Auto => [Claude, OpenAI, Gemini]
  }

  // ---------------------------------------------------------------------------
  // normalizeHistory
  // ---------------------------------------------------------------------------

  datatype Role = User | Assistant

  /** One earlier turn of the conversation as forwarded to a provider. */
  datatype Turn = Turn(role: Role, content: string)

  /** The last `n` elements of `s` (`slice(-n)`). */
  function TakeLast<T>(s: seq<T>, n: nat): (r: seq<T>)
    ensures |r| <= n && |r| <= |s|
    ensures r == s[|s| - |r|..]
    ensures |s| >= n ==> |r| == n
  {
    if |s| <= n then s else s[|s| - n..]
  }

  /** The turn one history item becomes: `assistant` only for the literal role
      `assistant`, and the content's string form trimmed (empty when absent). */
  function ItemTurn(item: Json): (t: Turn)
    ensures t.role == Assistant <==> Truthy(item) && Get(item, "role") == Some(JStr("assistant"))
    ensures Trim(t.content) == t.content
  {
    var role := if Truthy(item) && Get(item, "role") == Some(JStr("assistant")) then Assistant else User;
    var raw := if Truthy(item) then OrStr(Get(item, "content"), "") else "";
    TrimIdempotent(raw);
    Turn(role, Trim(raw))
  }

  /** Drops the turns whose content is empty. */
  function KeepNonEmpty(turns: seq<Turn>): (r: seq<Turn>)
    ensures |r| <= |turns|
    ensures forall i :: 0 <= i < |r| ==> r[i].content != ""
    ensures forall i :: 0 <= i < |r| ==> r[i] in turns
    decreases |turns|
  {
    if |turns| == 0 then []
    else
      var rest := KeepNonEmpty(turns[1..]);
      if turns[0].content != "" then [turns[0]] + rest else rest
  }

  /** Filtering keeps exactly the non-empty turns, in their original order:
      each non-empty turn as often as it occurs, and no empty one. */
  lemma {:induction false} KeepNonEmptyIsSubsequence(turns: seq<Turn>)
    ensures SubsequenceOf(KeepNonEmpty(turns), turns)
    ensures forall j :: 0 <= j < |turns| && turns[j].content != "" ==> turns[j] in KeepNonEmpty(turns)
    ensures forall t :: multiset(KeepNonEmpty(turns))[t] == if t.content != "" then multiset(turns)[t] else 0
    decreases |turns|
  {
    if |turns| > 0 {
      KeepNonEmptyIsSubsequence(turns[1..]);
      assert forall j :: 1 <= j < |turns| ==> turns[j] == turns[1..][j - 1];
      assert turns == [turns[0]] + turns[1..];
      assert multiset(turns) == multiset([turns[0]]) + multiset(turns[1..]);
    }
  }

  /** When no turn is empty, filtering drops nothing. */
  lemma {:induction false} KeepNonEmptyKeepsAll(turns: seq<Turn>)
    requires forall j :: 0 <= j < |turns| ==> turns[j].content != ""
    ensures KeepNonEmpty(turns) == turns
    decreases |turns|
  {
    if |turns| > 0 {
      KeepNonEmptyKeepsAll(turns[1..]);
      assert [turns[0]] + turns[1..] == turns;
    }
  }

  /** The history turns of the last six items, before filtering. */
  function RecentTurns(items: seq<Json>): (r: seq<Turn>)
    ensures |r| <= 6
  {
    var recent := TakeLast(items, 6);
    seq(|recent|, i requires 0 <= i < |recent| => ItemTurn(recent[i]))
  }

  /** `normalizeHistory`: nothing for a non-array; otherwise the turns of the
      last six items whose trimmed content is not empty. */
  function NormalizeHistory(history: Json): (r: seq<Turn>)
    ensures !history.JArr? ==> r == []
    ensures |r| <= 6
    ensures forall i :: 0 <= i < |r| ==> r[i].content != "" && Trim(r[i].content) == r[i].content
  {
    if !history.JArr? then []
    else
      var turns := RecentTurns(history.items);
      assert forall t :: t in turns ==> Trim(t.content) == t.content;
      KeepNonEmpty(turns)
  }

  /** The normalised history is drawn in order from the last six items: it
      keeps every one of them whose content is not empty, as often as it
      occurs, and all of them when none is empty. */
  lemma NormalizeHistoryDrawsFromRecent(items: seq<Json>)
    ensures SubsequenceOf(NormalizeHistory(JArr(items)), RecentTurns(items))
    ensures forall j :: 0 <= j < |RecentTurns(items)| && RecentTurns(items)[j].content != "" ==>
              RecentTurns(items)[j] in NormalizeHistory(JArr(items))
    ensures (forall j :: 0 <= j < |RecentTurns(items)| ==> RecentTurns(items)[j].content != "") ==>
              NormalizeHistory(JArr(items)) == RecentTurns(items)
    ensures forall t :: multiset(NormalizeHistory(JArr(items)))[t]
                        == if t.content != "" then multiset(RecentTurns(items))[t] else 0
  {
    KeepNonEmptyIsSubsequence(RecentTurns(items));
    if forall j :: 0 <= j < |RecentTurns(items)| ==> RecentTurns(items)[j].content != "" {
      KeepNonEmptyKeepsAll(RecentTurns(items));
    }
  }

  // ---------------------------------------------------------------------------
  // callClaude, callOpenAI, callGemini
  // ---------------------------------------------------------------------------

  /** What a provider's HTTP exchange produced: a reply text, an error response
      with its `error.message` (empty when it has none), or a failure that
      raised an error with the given message before any response was read. */
  datatype Outcome = Replied(text: string) | Refused(errorMessage: string) | Raised(message: string)

  /** The configured API keys. */
  datatype ApiKeys = ApiKeys(claude: string, openai: string, gemini: string) {
    function For(p: Provider): string {
      match p
      case Claude => claude
      case OpenAI => openai
      case Gemini => gemini
    }
  }

  /** One adapter call: an error naming the provider when its key is missing,
      otherwise the trimmed reply or the error the exchange produced. */
  function CallAdapter(p: Provider, key: string, outcome: Outcome): (r: Result<string, string>)
    ensures key == "" ==> r == Err(p.Label() + " API key missing")
    ensures r.Ok? ==> Trim(r.value) == r.value
  {
    if key == "" then Err(p.Label() + " API key missing")
    else
      match outcome
      case Replied(text) =>
        TrimIdempotent(text);
        Ok(Trim(text))
      case Refused(m) => Err(if m != "" then m else p.Label() + " request failed")
      case Raised(m) => Err(m)
  }

  /** A missing key fails before any request: the outcome is never consulted. */
  lemma MissingKeyIgnoresOutcome(p: Provider, o1: Outcome, o2: Outcome)
    ensures CallAdapter(p, "", o1) == CallAdapter(p, "", o2)
  {
  }

  // ---------------------------------------------------------------------------
  // callProviders
  // ---------------------------------------------------------------------------

  /** The failover reference: try the providers from the front; the first
      success answers; after the last failure its error is raised. */
  function FailoverFrom(sequence: seq<Provider>, attempt: Provider -> Result<string, string>,
                        lastError: Option<string>): Result<(Provider, string), string>
    decreases |sequence|
  {
    if |sequence| == 0 then
      if lastError.Some? then Err(lastError.value) else Err("No AI provider configured")
    else
      match attempt(sequence[0])
      case Ok(reply) => Ok((sequence[0], reply))
      case Err(e) => FailoverFrom(sequence[1..], attempt, Some(e))
  }

  function Failover(sequence: seq<Provider>, attempt: Provider -> Result<string, string>)
    : Result<(Provider, string), string>
  {
    FailoverFrom(sequence, attempt, None)
  }

  /** The failover answers with the first provider that succeeds, with its
      reply; it fails exactly when every provider fails, with the last
      provider's error, or with "No AI provider configured" when there is none. */
  lemma {:induction false} FailoverFirstSuccess(sequence: seq<Provider>, attempt: Provider -> Result<string, string>,
                                                lastError: Option<string>)
    ensures var r := FailoverFrom(sequence, attempt, lastError);
            r.Ok? <==> exists k :: 0 <= k < |sequence| && attempt(sequence[k]).Ok?
    ensures var r := FailoverFrom(sequence, attempt, lastError);
            r.Ok? ==> exists k :: 0 <= k < |sequence|
                       && sequence[k] == r.value.0 && attempt(sequence[k]) == Ok(r.value.1)
                       && forall j :: 0 <= j < k ==> attempt(sequence[j]).Err?
    ensures var r := FailoverFrom(sequence, attempt, lastError);
            r.Err? && |sequence| > 0 ==> r.error == attempt(sequence[|sequence| - 1]).error
    ensures |sequence| == 0 ==>
            FailoverFrom(sequence, attempt, lastError) ==
              Err(if lastError.Some? then lastError.value else "No AI provider configured")
    decreases |sequence|
  {
    if |sequence| > 0 {
      var r := FailoverFrom(sequence, attempt, lastError);
      if attempt(sequence[0]).Ok? {
        assert sequence[0] == r.value.0 && attempt(sequence[0]) == Ok(r.value.1);
      } else {
        var tail := sequence[1..];
        FailoverFirstSuccess(tail, attempt, Some(attempt(sequence[0]).error));
        assert forall k :: 1 <= k < |sequence| ==> sequence[k] == tail[k - 1];
        if r.Ok? {
          var k :| 0 <= k < |tail| && tail[k] == r.value.0 && attempt(tail[k]) == Ok(r.value.1)
                   && forall j :: 0 <= j < k ==> attempt(tail[j]).Err?;
          assert sequence[k + 1] == tail[k];
          assert forall j :: 0 <= j < k + 1 ==> attempt(sequence[j]).Err? by {
            assert forall j :: 1 <= j < k + 1 ==> sequence[j] == tail[j - 1];
          }
        }
        if |tail| == 0 {
          assert r.error == attempt(sequence[0]).error;
        } else {
          assert sequence[|sequence| - 1] == tail[|tail| - 1];
        }
      }
    }
  }

  /** `callProviders`: tries the providers in order until one succeeds.
      Returns the outcome and the providers whose adapter was called: a prefix
      of the sequence that stops at the first success, so no provider after a
      successful one is ever called. */
  method CallProviders(sequence: seq<Provider>, attempt: Provider -> Result<string, string>)
    returns (r: Result<(Provider, string), string>, called: seq<Provider>)
    ensures r == Failover(sequence, attempt)
    ensures |called| <= |sequence| && called == sequence[..|called|]
    ensures forall j :: 0 <= j < |called| - 1 ==> attempt(called[j]).Err?
    ensures r.Ok? ==> |called| > 0 && called[|called| - 1] == r.value.0 && attempt(r.value.0) == Ok(r.value.1)
    ensures r.Err? ==> called == sequence
  {
    var lastError: Option<string> := None;
    called := [];
    var i := 0;
    while i < |sequence|
      invariant 0 <= i <= |sequence|
      invariant called == sequence[..i]
      invariant forall j :: 0 <= j < i ==> attempt(sequence[j]).Err?
      invariant Failover(sequence, attempt) == FailoverFrom(sequence[i..], attempt, lastError)
    {
      var p := sequence[i];
      called := called + [p];
      var result := attempt(p);
      assert sequence[i..][1..] == sequence[i + 1..];
      if result.Ok? {
        r := Ok((p, result.value));
        return;
      }
      lastError := Some(result.error);
      i := i + 1;
    }
    r := if lastError.Some? then Err(lastError.value) else Err("No AI provider configured");
  }

  // ---------------------------------------------------------------------------
  // POST /chat
  // ---------------------------------------------------------------------------

  /** The reply of `POST /chat`. */
  datatype ChatReply = ChatAnswered(reply: string, provider: Provider) | ChatFailed(status: nat, error: string)

  /** The gateway's settings: the `AI_PROVIDER` value and the API keys. */
  datatype GatewayConfig = GatewayConfig(aiProvider: string, keys: ApiKeys)

  /** The message a chat request carries, trimmed (empty when absent or falsy). */
  function ChatMessage(body: Json): (m: string)
    ensures Trim(m) == m
  {
    var raw := if Truthy(body) then OrStr(Get(body, "message"), "") else "";
    TrimIdempotent(raw);
    Trim(raw)
  }

  /** The history a chat request carries (`[]` when absent or falsy). */
  function ChatHistory(body: Json): seq<Turn> {
    NormalizeHistory(if Truthy(body) then OrJson(Get(body, "history"), JArr([])) else JArr([]))
  }

  /** The adapter calls of one request: each provider's adapter with its key
      and the outcome its exchange for this message and history produces. */
  function Attempts(cfg: GatewayConfig, exchange: (Provider, string, seq<Turn>) -> Outcome,
                    message: string, history: seq<Turn>): Provider -> Result<string, string>
  {
    p => CallAdapter(p, cfg.keys.For(p), exchange(p, message, history))
  }

  /** The reply for a non-blank message, given the failover's result. */
  function ReplyFor(result: Result<(Provider, string), string>): ChatReply {
    match result
    case Ok((provider, reply)) =>
      if reply == "" then ChatFailed(500, "Empty response from AI provider")
      else ChatAnswered(reply, provider)
    case Err(e) => ChatFailed(500, if e != "" then e else "AI request failed")
  }

  /** `POST /chat` once the trimmed message and normalised history are read. */
  function AnswerChat(cfg: GatewayConfig, exchange: (Provider, string, seq<Turn>) -> Outcome,
                      message: string, history: seq<Turn>): ChatReply
  {
    if message == "" then ChatFailed(400, "Message is required")
    else ReplyFor(Failover(ProviderSequence(cfg.aiProvider), Attempts(cfg, exchange, message, history)))
  }

  /** `POST /chat`. */
  function HandleChat(cfg: GatewayConfig, exchange: (Provider, string, seq<Turn>) -> Outcome, body: Json): ChatReply {
    AnswerChat(cfg, exchange, ChatMessage(body), ChatHistory(body))
  }

  /** The reply after failover, for any provider sequence and adapter
      results: an answer is the non-empty reply of the first provider that
      succeeded; that provider's empty reply is an error even when a later
      provider would have answered; when all fail, the last error is
      reported, or a generic one when it is empty. */
  lemma ReplyAfterFailover(seqn: seq<Provider>, attempt: Provider -> Result<string, string>)
    requires |seqn| >= 1
    ensures var r := ReplyFor(Failover(seqn, attempt));
            r.ChatAnswered? ==>
              && r.reply != ""
              && exists k :: 0 <= k < |seqn| && seqn[k] == r.provider && attempt(seqn[k]) == Ok(r.reply)
                             && forall j :: 0 <= j < k ==> attempt(seqn[j]).Err?
    ensures attempt(seqn[0]) == Ok("") ==>
              ReplyFor(Failover(seqn, attempt)) == ChatFailed(500, "Empty response from AI provider")
    ensures (forall k :: 0 <= k < |seqn| ==> attempt(seqn[k]).Err?) ==>
              var e := attempt(seqn[|seqn| - 1]).error;
              ReplyFor(Failover(seqn, attempt)) == ChatFailed(500, if e != "" then e else "AI request failed")
  {
    FailoverFirstSuccess(seqn, attempt, None);
  }

  /** A blank message is refused before any provider is asked, whatever the
      providers would answer; an answer is a trimmed, non-empty provider reply. */
  lemma ChatOutcomes(cfg: GatewayConfig, exchange: (Provider, string, seq<Turn>) -> Outcome,
                     message: string, history: seq<Turn>)
    ensures message == "" ==> AnswerChat(cfg, exchange, message, history) == ChatFailed(400, "Message is required")
    ensures var r := AnswerChat(cfg, exchange, message, history);
            r.ChatAnswered? ==> r.reply != "" && Trim(r.reply) == r.reply
  {
    if message != "" {
      var seqn := ProviderSequence(cfg.aiProvider);
      var attempt := Attempts(cfg, exchange, message, history);
      ReplyAfterFailover(seqn, attempt);
      var r := AnswerChat(cfg, exchange, message, history);
      if r.ChatAnswered? {
        var k :| 0 <= k < |seqn| && seqn[k] == r.provider && attempt(seqn[k]) == Ok(r.reply);
        var res := CallAdapter(seqn[k], cfg.keys.For(seqn[k]), exchange(seqn[k], message, history));
        assert attempt(seqn[k]) == res;
      }
    }
  }

  /** With no API key at all, every provider fails on its missing key and the
      request fails with the last provider's key error. */
  lemma NoKeysNoAnswer(aiProvider: string, exchange: (Provider, string, seq<Turn>) -> Outcome,
                       message: string, history: seq<Turn>)
    requires message != ""
    ensures var seqn := ProviderSequence(aiProvider);
            AnswerChat(GatewayConfig(aiProvider, ApiKeys("", "", "")), exchange, message, history)
              == ChatFailed(500, seqn[|seqn| - 1].Label() + " API key missing")
  {
    var cfg := GatewayConfig(aiProvider, ApiKeys("", "", ""));
    var seqn := ProviderSequence(aiProvider);
    var attempt := Attempts(cfg, exchange, message, history);
    forall k | 0 <= k < |seqn|
      ensures attempt(seqn[k]) == Err(seqn[k].Label() + " API key missing")
    {
      assert cfg.keys.For(seqn[k]) == "";
      assert attempt(seqn[k]) == CallAdapter(seqn[k], "", exchange(seqn[k], message, history));
    }
    ReplyAfterFailover(seqn, attempt);
  }
}

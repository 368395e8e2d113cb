/** The OpenAI client (src/openai_client.py): its settings read from the
    configuration, the generation call with retries and exponential back-off,
    and the connection probe. The chat-completion service is an oracle: the
    reply to attempt `k` is `provider(k)`, and the probe's reply is a separate
    parameter. */
module Client {
  import opened Wrappers
  import Utils
  import Config

  /** What one call to the chat-completion service yields: it raises, or it
      replies with a list of choices whose message contents may be absent. */
  datatype Attempt = Failed(error: string) | Replied(choices: seq<Option<string>>)

  /** The client's settings, as `__init__` reads them from the configuration. */
  datatype OpenAIClient = OpenAIClient(
    model: Config.Value,
    temperature: Config.Value,
    maxCompletionTokens: Config.Value,
    maxRetries: Config.Value,
    retryDelay: Config.Value)

  const MissingKeyMessage := "OPENAI_API_KEY環境変数が設定されていません"
  /** Labels for the `TypeError` and `AttributeError` a badly typed setting
      raises; Python's own message names the offending type, which these do
      not. */
  const NoAttributeGet := "AttributeError: object has no attribute 'get'"
  const RangeTypeError := "TypeError: retry_attempts cannot be interpreted as an integer"
  const SleepTypeError := "TypeError: retry delay is not a number"
  /** `str()` of the `ValueError` that `time.sleep` raises for a negative length. */
  const SleepValueError := "sleep length must be non-negative"
  const NoResponse := "No response generated."

  // ---------------------------------------------------------------------
  // __init__ (src/openai_client.py:13-26)
  // ---------------------------------------------------------------------

  /** `config.get(name, {})`: an absent section reads as an empty dictionary;
      a present one that is not a dictionary has no `.get`. */
  function Section(config: Config.Table, name: string): (r: Result<Config.Table, string>)
    ensures r.Ok? <==> name !in config || config[name].Dict?
    ensures r.Ok? ==> r.value == if name in config then config[name].entries else map[]
  {
    if name !in config then Ok(map[])
    else if config[name].Dict? then Ok(config[name].entries)
    else Err(NoAttributeGet)
  }

  /** `section.get(key, default)`. */
  function GetOr(section: Config.Table, key: string, default: Config.Value): Config.Value {
    if key in section then section[key] else default
  }

  /** `OpenAIClient(config, logger)` with `OPENAI_API_KEY` set to `apiKey`. */
  function NewClient(config: Config.Table, apiKey: Option<string>): (r: Result<OpenAIClient, string>)
    ensures (apiKey.None? || apiKey.value == []) ==> r == Err(MissingKeyMessage)
    ensures r.Ok? <==>
              apiKey.Some? && apiKey.value != [] &&
              Section(config, "openai").Ok? && Section(config, "processing").Ok?
    ensures r.Ok? ==>
              var o := Section(config, "openai").value;
              var p := Section(config, "processing").value;
              r.value.model == (if "model" in o then o["model"] else Config.Str("o4-mini")) &&
              r.value.temperature == (if "temperature" in o then o["temperature"] else Config.Num(0.7)) &&
              r.value.maxCompletionTokens == (if "max_tokens" in o then o["max_tokens"] else Config.Int(1000)) &&
              r.value.maxRetries == (if "retry_attempts" in p then p["retry_attempts"] else Config.Int(3)) &&
              r.value.retryDelay == (if "retry_delay" in p then p["retry_delay"] else Config.Num(1.0))
  {
    if apiKey.None? || apiKey.value == [] then Err(MissingKeyMessage)
    else
      match (Section(config, "openai"), Section(config, "processing"))
      case (Ok(o), Ok(p)) =>
        Ok(OpenAIClient(
          GetOr(o, "model", Config.Str("o4-mini")),
          GetOr(o, "temperature", Config.Num(0.7)),
          GetOr(o, "max_tokens", Config.Int(1000)),
          GetOr(p, "retry_attempts", Config.Int(3)),
          GetOr(p, "retry_delay", Config.Num(1.0))))
      case (Err(e), _) => Err(e)
      case (_, Err(e)) => Err(e)
  }

  /** The client built from the merged defaults: `o4-mini`, three attempts, a
      one-second base delay. */
  lemma DefaultClient(apiKey: string)
    requires apiKey != []
    ensures NewClient(Config.DefaultConfig, Some(apiKey)) ==
              Ok(OpenAIClient(Config.Str("o4-mini"), Config.Num(0.7), Config.Int(1000),
                              Config.Int(3), Config.Num(1.0)))
  {
  }

  // ---------------------------------------------------------------------
  // generate_article (src/openai_client.py:28-74)
  // ---------------------------------------------------------------------

  /** How a call of `generate_article` ends: it returns an optional text, or it
      raises with a message. */
  datatype Generation = Returned(content: Option<string>) | Raised(error: string)

  /** The outcome of a call together with how many times the service was
      called and the arguments of the calls to `time.sleep` that returned; the
      argument of a sleep that raises is not recorded. */
  datatype Trace = Trace(outcome: Generation, calls: nat, delays: seq<real>)

  /** The attempt did not raise: the reply has a first choice. An empty list
      of choices raises `IndexError` inside the `try`, like a service error. */
  predicate Answered(a: Attempt) {
    a.Replied? && |a.choices| > 0
  }

  /** What an answered attempt returns: the stripped message content, or the
      fallback text when the content is absent or empty. */
  function ContentOf(a: Attempt): (text: string)
    requires Answered(a)
    ensures a.choices[0].Some? && a.choices[0].value != [] ==> text == Utils.Strip(a.choices[0].value)
    ensures a.choices[0].None? || a.choices[0].value == [] ==> text == NoResponse
  {
    match a.choices[0]
    case Some(s) => if s != [] then Utils.Strip(s) else NoResponse
    case None => NoResponse
  }

  /** The number of attempts `range(1, max_retries + 1)` runs, or `None`
      when the setting is not an integer (a boolean counts as 0 or 1). */
  function RetryCount(v: Config.Value): (n: Option<int>)
    ensures n.Some? <==> v.Int? || v.Bool?
    ensures v.Int? ==> n == Some(v.i)
    ensures v.Bool? ==> n.Some? && (n.value == 1 <==> v.b) && (n.value == 0 <==> !v.b)
  {
    match v
    case Int(i) => Some(i)
    case Bool(b) => Some(if b then 1 else 0)
    case _ => None
  }

  /** The factor `retry_delay * 2 ** k` multiplies, when it is a number. */
  function DelayBase(v: Config.Value): (b: Option<real>)
    ensures b.Some? <==> v.Int? || v.Num? || v.Bool?
    ensures v.Int? ==> b == Some(v.i as real)
    ensures v.Num? ==> b == Some(v.r)
    ensures v.Bool? ==> b.Some? && (b.value == 1.0 <==> v.b) && (b.value == 0.0 <==> !v.b)
  {
    match v
    case Int(i) => Some(i as real)
    case Num(r) => Some(r)
    case Bool(b) => Some(if b then 1.0 else 0.0)
    case _ => None
  }

  function Pow2(k: nat): (p: nat)
    ensures p >= 1
  {
    if k == 0 then 1 else 2 * Pow2(k - 1)
  }

  /** The back-off before attempt `attempt + 1`: the base after the first
      attempt, doubled after each later one, and negative only when the base is. */
  function Delay(base: real, attempt: nat): (d: real)
    requires attempt >= 1
    ensures attempt == 1 ==> d == base
    ensures d < 0.0 <==> base < 0.0
    ensures d == 0.0 <==> base == 0.0
  {
    ScaleSign(base, Pow2(attempt - 1));
    base * Pow2(attempt - 1) as real
  }

  /** Each back-off is twice the one before. */
  lemma DelayDoubles(base: real, attempt: nat)
    requires attempt > 1
    ensures Delay(base, attempt) == 2.0 * Delay(base, attempt - 1)
  {
    assert Pow2(attempt - 1) == 2 * Pow2(attempt - 2);
    assert (Pow2(attempt - 1) as real) == 2.0 * (Pow2(attempt - 2) as real);
  }

  /** Multiplying by a positive whole number keeps the sign. */
  lemma ScaleSign(b: real, p: nat)
    requires p >= 1
    ensures b * (p as real) < 0.0 <==> b < 0.0
    ensures b * (p as real) == 0.0 <==> b == 0.0
  {
    if b < 0.0 {
      assert b * (p as real) <= b;
    } else if b > 0.0 {
      assert b * (p as real) >= b;
    }
  }

  /** The sequence of attempts from `attempt` to `n`, as the loop runs them. */
  function AttemptsFrom(provider: nat -> Attempt, base: Option<real>, attempt: nat, n: nat): (t: Trace)
    requires 1 <= attempt <= n
    ensures attempt <= t.calls <= n
    decreases n - attempt
  {
    var a := provider(attempt);
    if Answered(a) then Trace(Returned(Some(ContentOf(a))), attempt, [])
    else if attempt < n then
      match base
      case None => Trace(Raised(SleepTypeError), attempt, [])
      case Some(b) =>
        var d := Delay(b, attempt);
        if d < 0.0 then Trace(Raised(SleepValueError), attempt, [])
        else
          var rest := AttemptsFrom(provider, base, attempt + 1, n);
          Trace(rest.outcome, rest.calls, [d] + rest.delays)
    else Trace(Returned(None), attempt, [])
  }

  /** The whole call: `formatted` is the result of `prompt.format(title=title)`,
      which raises before the loop when the template has other fields. */
  function Generate(c: OpenAIClient, formatted: Result<string, string>, provider: nat -> Attempt): (t: Trace)
    ensures formatted.Err? ==> t == Trace(Raised(formatted.error), 0, [])
    ensures t.outcome.Returned? && t.outcome.content.Some? ==> t.calls >= 1
  {
    if formatted.Err? then Trace(Raised(formatted.error), 0, [])
    else
      match RetryCount(c.maxRetries)
      case None => Trace(Raised(RangeTypeError), 0, [])
      case Some(n) =>
        if n < 1 then Trace(Returned(None), 0, [])
        else AttemptsFrom(provider, DelayBase(c.retryDelay), 1, n)
  }

  /** `generate_article`: calls the service up to `max_retries` times, sleeping
      `retry_delay * 2 ** (attempt - 1)` seconds after each failure but the last. */
  method GenerateArticle(c: OpenAIClient, formatted: Result<string, string>, provider: nat -> Attempt)
    returns (outcome: Generation, calls: nat, delays: seq<real>)
    ensures Trace(outcome, calls, delays) == Generate(c, formatted, provider)
  {
    calls, delays := 0, [];
    if formatted.Err? {
      return Raised(formatted.error), calls, delays;
    }
    var count := RetryCount(c.maxRetries);
    if count.None? {
      return Raised(RangeTypeError), calls, delays;
    }
    var n := count.value;
    var base := DelayBase(c.retryDelay);
    var attempt := 1;
    while attempt <= n
      invariant 1 <= attempt && calls == attempt - 1
      invariant attempt > n ==> n < 1 && attempt == 1 && delays == []
      invariant attempt <= n ==>
                  var rest := AttemptsFrom(provider, base, attempt, n);
                  Generate(c, formatted, provider) == Trace(rest.outcome, rest.calls, delays + rest.delays)
      decreases n - attempt
    {
      var response := provider(attempt);
      calls := calls + 1;
      if Answered(response) {
        var choice := response.choices[0];
        if choice.Some? && choice.value != [] {
          var text := Utils.Strip(choice.value);
          assert delays + [] == delays;
          return Returned(Some(text)), calls, delays;
        } else {
          assert delays + [] == delays;
          return Returned(Some(NoResponse)), calls, delays;
        }
      }
      if attempt < n {
        if base.None? {
          assert delays + [] == delays;
          return Raised(SleepTypeError), calls, delays;
        }
        var delay := Delay(base.value, attempt);
        if delay < 0.0 {
          assert delays + [] == delays;
          return Raised(SleepValueError), calls, delays;
        }
        var rest := AttemptsFrom(provider, base, attempt + 1, n);
        assert delays + ([delay] + rest.delays) == (delays + [delay]) + rest.delays;
        delays := delays + [delay];
      } else {
        assert delays + [] == delays;
        return Returned(None), calls, delays;
      }
      attempt := attempt + 1;
    }
    return Returned(None), calls, delays;
  }

  // ---------------------------------------------------------------------
  // What the retry loop promises
  // ---------------------------------------------------------------------

  /** The back-off base is a non-negative number, so every sleep succeeds. */
  predicate SleepsSucceed(base: Option<real>) {
    base.Some? && base.value >= 0.0
  }

  /** The first `attempt` that does not raise is the one whose content comes
      back; the service is called exactly that many times. */
  lemma {:induction false} FirstAnswerWins(provider: nat -> Attempt, base: Option<real>, attempt: nat, n: nat, k: nat)
    requires 1 <= attempt <= k <= n && SleepsSucceed(base)
    requires Answered(provider(k))
    requires forall j :: attempt <= j < k ==> !Answered(provider(j))
    ensures AttemptsFrom(provider, base, attempt, n).outcome == Returned(Some(ContentOf(provider(k))))
    ensures AttemptsFrom(provider, base, attempt, n).calls == k
    decreases k - attempt
  {
    if attempt < k {
      DelayNonNegative(base.value, attempt);
      FirstAnswerWins(provider, base, attempt + 1, n, k);
    }
  }

  lemma DelayNonNegative(b: real, attempt: nat)
    requires b >= 0.0 && attempt >= 1
    ensures Delay(b, attempt) >= 0.0
  {
  }

  /** With sleeps that succeed, the call returns `None` exactly when every
      attempt raised, and then it made all `n` calls. */
  lemma {:induction false} NoneIffAllFailed(provider: nat -> Attempt, base: Option<real>, attempt: nat, n: nat)
    requires 1 <= attempt <= n && SleepsSucceed(base)
    ensures AttemptsFrom(provider, base, attempt, n).outcome == Returned(None) <==>
              forall j :: attempt <= j <= n ==> !Answered(provider(j))
    ensures AttemptsFrom(provider, base, attempt, n).outcome == Returned(None) ==>
              AttemptsFrom(provider, base, attempt, n).calls == n
    ensures AttemptsFrom(provider, base, attempt, n).outcome.Returned?
    decreases n - attempt
  {
    if !Answered(provider(attempt)) && attempt < n {
      DelayNonNegative(base.value, attempt);
      NoneIffAllFailed(provider, base, attempt + 1, n);
    }
  }

  function Sum(s: seq<real>): real {
    if s == [] then 0.0 else s[0] + Sum(s[1..])
  }

  /** When every attempt raises, the sleeps are `b, 2b, 4b, …`: one after
      each failed attempt but the last. */
  lemma {:induction false} BackoffSchedule(provider: nat -> Attempt, b: real, attempt: nat, n: nat)
    requires 1 <= attempt <= n && b >= 0.0
    requires forall j :: attempt <= j <= n ==> !Answered(provider(j))
    ensures var t := AttemptsFrom(provider, Some(b), attempt, n);
            |t.delays| == n - attempt &&
            forall i :: 0 <= i < |t.delays| ==> t.delays[i] == Delay(b, attempt + i)
    decreases n - attempt
  {
    if attempt < n {
      DelayNonNegative(b, attempt);
      BackoffSchedule(provider, b, attempt + 1, n);
      var rest := AttemptsFrom(provider, Some(b), attempt + 1, n);
      var t := AttemptsFrom(provider, Some(b), attempt, n);
      assert t.delays == [Delay(b, attempt)] + rest.delays;
      forall i | 1 <= i < |t.delays| ensures t.delays[i] == Delay(b, attempt + i) {
        assert t.delays[i] == rest.delays[i - 1];
      }
    }
  }

  /** When every attempt raises, the sleeps add up to `b * (2 ** (n - 1) - 1)`
      over the whole call, counted here from attempt `attempt`. */
  lemma BackoffTotal(provider: nat -> Attempt, b: real, attempt: nat, n: nat)
    requires 1 <= attempt <= n && b >= 0.0
    requires forall j :: attempt <= j <= n ==> !Answered(provider(j))
    ensures Sum(AttemptsFrom(provider, Some(b), attempt, n).delays) ==
            b * ((Pow2(n - 1) - Pow2(attempt - 1)) as real)
  {
    var s := AttemptsFrom(provider, Some(b), attempt, n).delays;
    BackoffSchedule(provider, b, attempt, n);
    SumOfSchedule(s, b, attempt);
    DelayDifference(b, attempt, n);
  }

  /** Sleeps `Delay(b, k), Delay(b, k + 1), …, Delay(b, m - 1)` add up to
      `Delay(b, m) - Delay(b, k)`. */
  lemma {:induction false} SumOfSchedule(s: seq<real>, b: real, attempt: nat)
    requires attempt >= 1
    requires forall i :: 0 <= i < |s| ==> s[i] == Delay(b, attempt + i)
    ensures Sum(s) == Delay(b, attempt + |s|) - Delay(b, attempt)
    decreases |s|
  {
    if s != [] {
      assert forall i :: 0 <= i < |s[1..]| ==> s[1..][i] == s[i + 1];
      SumOfSchedule(s[1..], b, attempt + 1);
      assert attempt + 1 + |s[1..]| == attempt + |s|;
      DelayDoubles(b, attempt + 1);
    }
  }

  lemma DelayDifference(b: real, k: nat, m: nat)
    requires 1 <= k <= m
    ensures Delay(b, m) - Delay(b, k) == b * ((Pow2(m - 1) - Pow2(k - 1)) as real)
  {
  }

  /** With a back-off base that sleeps accept, `generate_article` returns
      `None` exactly when every one of its attempts raised; with zero or fewer
      attempts configured that holds at once. */
  lemma GenerateNoneIffAllFailed(c: OpenAIClient, prompt: string, provider: nat -> Attempt)
    requires RetryCount(c.maxRetries).Some? && SleepsSucceed(DelayBase(c.retryDelay))
    ensures Generate(c, Ok(prompt), provider).outcome == Returned(None) <==>
            forall j :: 1 <= j <= RetryCount(c.maxRetries).value ==> !Answered(provider(j))
  {
    var n := RetryCount(c.maxRetries).value;
    if n >= 1 {
      NoneIffAllFailed(provider, DelayBase(c.retryDelay), 1, n);
    }
  }

  /** When the first attempt raises and another is due, a `retry_delay` that
      `time.sleep` cannot take ends the call at the first sleep, after one
      call: a negative number raises `ValueError`, and a value that is neither
      a number nor a boolean raises `TypeError`. */
  lemma SleepFailureRaises(c: OpenAIClient, prompt: string, provider: nat -> Attempt)
    requires RetryCount(c.maxRetries).Some? && RetryCount(c.maxRetries).value >= 2
    requires !Answered(provider(1))
    ensures DelayBase(c.retryDelay).Some? && DelayBase(c.retryDelay).value < 0.0 ==>
              Generate(c, Ok(prompt), provider) == Trace(Raised(SleepValueError), 1, [])
    ensures DelayBase(c.retryDelay).None? ==>
              Generate(c, Ok(prompt), provider) == Trace(Raised(SleepTypeError), 1, [])
  {
  }

  /** When all `n` attempts raise, the call makes `n` calls, sleeps
      `Delay(b, k) = b * 2 ** (k - 1)` after attempt `k < n` and nothing after the last, and
      waits `b * (2 ** (n - 1) - 1)` in all. */
  lemma AllFailedWaits(c: OpenAIClient, prompt: string, provider: nat -> Attempt)
    requires RetryCount(c.maxRetries).Some? && RetryCount(c.maxRetries).value >= 1
    requires SleepsSucceed(DelayBase(c.retryDelay))
    requires forall j :: 1 <= j <= RetryCount(c.maxRetries).value ==> !Answered(provider(j))
    ensures var n, b := RetryCount(c.maxRetries).value, DelayBase(c.retryDelay).value;
            var t := Generate(c, Ok(prompt), provider);
            t.outcome == Returned(None) && t.calls == n && |t.delays| == n - 1 &&
            (forall i :: 0 <= i < n - 1 ==> t.delays[i] == Delay(b, i + 1)) &&
            Sum(t.delays) == b * ((Pow2(n - 1) - 1) as real)
  {
    var n, b := RetryCount(c.maxRetries).value, DelayBase(c.retryDelay).value;
    assert Generate(c, Ok(prompt), provider) == AttemptsFrom(provider, Some(b), 1, n);
    AllFailedTrace(provider, b, n);
  }

  /** The trace of `n` attempts that all raise, with a base delay `b >= 0`. */
  lemma AllFailedTrace(provider: nat -> Attempt, b: real, n: nat)
    requires n >= 1 && b >= 0.0
    requires forall j :: 1 <= j <= n ==> !Answered(provider(j))
    ensures var t := AttemptsFrom(provider, Some(b), 1, n);
            t.outcome == Returned(None) && t.calls == n && |t.delays| == n - 1 &&
            (forall i :: 0 <= i < n - 1 ==> t.delays[i] == Delay(b, i + 1)) &&
            Sum(t.delays) == b * ((Pow2(n - 1) - 1) as real)
  {
    var t := AttemptsFrom(provider, Some(b), 1, n);
    NoneIffAllFailed(provider, Some(b), 1, n);
    BackoffSchedule(provider, b, 1, n);
    calc {
      Sum(t.delays);
      { BackoffTotal(provider, b, 1, n); }
      b * ((Pow2(n - 1) - Pow2(0)) as real);
      { assert Pow2(0) == 1; }
      b * ((Pow2(n - 1) - 1) as real);
    }
  }

  /** The default settings: three attempts, sleeping 1.0 and then 2.0 seconds,
      three seconds in all, before giving up with `None`. */
  lemma DefaultRetries(c: OpenAIClient, prompt: string, provider: nat -> Attempt)
    requires c.maxRetries == Config.Int(3) && c.retryDelay == Config.Num(1.0)
    requires forall j :: 1 <= j <= 3 ==> !Answered(provider(j))
    ensures Generate(c, Ok(prompt), provider) == Trace(Returned(None), 3, [1.0, 2.0])
  {
    assert !Answered(provider(1)) && !Answered(provider(2)) && !Answered(provider(3));
    assert Pow2(1) == 2;
  }

  /** A reply whose content is only whitespace is stripped to the empty text,
      while an empty or absent content gives the fallback text. */
  lemma BlankReplies(s: string)
    requires s != [] && Utils.IsBlank(s)
    ensures ContentOf(Replied([Some(s)])) == []
    ensures ContentOf(Replied([Some([])])) == NoResponse
    ensures ContentOf(Replied([None])) == NoResponse
  {
  }

  /** A setting of zero or fewer attempts makes no call and returns `None`. */
  lemma NoAttempts(c: OpenAIClient, prompt: string, provider: nat -> Attempt)
    requires RetryCount(c.maxRetries).Some? && RetryCount(c.maxRetries).value < 1
    ensures Generate(c, Ok(prompt), provider) == Trace(Returned(None), 0, [])
  {
  }

  /** Every call stays within the configured number of attempts. */
  lemma CallsBounded(c: OpenAIClient, formatted: Result<string, string>, provider: nat -> Attempt)
    ensures var t := Generate(c, formatted, provider);
            t.calls == 0 || (RetryCount(c.maxRetries).Some? && t.calls <= RetryCount(c.maxRetries).value)
    ensures |Generate(c, formatted, provider).delays| < Generate(c, formatted, provider).calls ||
            Generate(c, formatted, provider).calls == 0
  {
    var t := Generate(c, formatted, provider);
    if formatted.Ok? && RetryCount(c.maxRetries).Some? && RetryCount(c.maxRetries).value >= 1 {
      DelaysBeforeCalls(provider, DelayBase(c.retryDelay), 1, RetryCount(c.maxRetries).value);
    }
  }

  /** One sleep fewer than calls, counted from attempt `attempt`. */
  lemma {:induction false} DelaysBeforeCalls(provider: nat -> Attempt, base: Option<real>, attempt: nat, n: nat)
    requires 1 <= attempt <= n
    ensures |AttemptsFrom(provider, base, attempt, n).delays| == AttemptsFrom(provider, base, attempt, n).calls - attempt
    decreases n - attempt
  {
    var a := provider(attempt);
    if !Answered(a) && attempt < n && base.Some? && Delay(base.value, attempt) >= 0.0 {
      DelaysBeforeCalls(provider, base, attempt + 1, n);
    }
  }

  // ---------------------------------------------------------------------
  // test_connection (src/openai_client.py:76-98)
  // ---------------------------------------------------------------------

  /** `test_connection` on the probe's reply: true exactly when the probe did
      not raise and its first choice has non-empty content. */
  function TestConnection(probe: Attempt): (ok: bool)
    ensures ok <==> Answered(probe) && probe.choices[0].Some? && probe.choices[0].value != []
  {
    match probe
    case Failed(_) => false
    case Replied(choices) => |choices| > 0 && choices[0].Some? && choices[0].value != []
  }

  /** A reply that passes the connection probe, given as the first attempt of
      a generation, is returned at once as its stripped content. */
  lemma ProbeReplyIsArticle(c: OpenAIClient, prompt: string, provider: nat -> Attempt)
    requires TestConnection(provider(1))
    requires RetryCount(c.maxRetries).Some? && RetryCount(c.maxRetries).value >= 1
    ensures Generate(c, Ok(prompt), provider) ==
              Trace(Returned(Some(Utils.Strip(provider(1).choices[0].value))), 1, [])
  {
  }
}

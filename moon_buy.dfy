/** The moon-buy pipeline of `src/utils/moonbuy.ts`: ask the trading backend for
    partially built bundles, sign them locally, then submit them one by one through the
    relay, checking the rate limit before each send and pausing 500 ms between sends.
    The backend's answer, the keypair library, the clock and the relay's replies are
    parameters. */
module MoonBuy {
  import opened Js
  import opened RateLimit
  import opened BundleSigning

  // ---- the trading server's base URL ----

  /** `url.replace(/\/+$/, '')`: the URL without its trailing slashes. */
  function TrimTrailingSlashes(s: string): (r: string)
    ensures StartsWith(s, r)
    ensures r == [] || r[|r| - 1] != '/'
    ensures forall i :: |r| <= i < |s| ==> s[i] == '/'
    decreases |s|
  {
    if |s| > 0 && s[|s| - 1] == '/' then
      var r := TrimTrailingSlashes(s[..|s| - 1]);
      assert s[..|s| - 1][..|r|] == s[..|r|];
      r
    else s
  }

  lemma TrimTrailingSlashesIdempotent(s: string)
    ensures TrimTrailingSlashes(TrimTrailingSlashes(s)) == TrimTrailingSlashes(s)
  {
  }

  /** `window.tradingServerUrl?.replace(/\/+$/, '') || ''`; `None` when it is not set. */
  function BaseUrl(configured: Option<string>): (r: string)
    ensures configured.None? ==> r == ""
    ensures configured.Some? ==> r == TrimTrailingSlashes(configured.value)
  {
    match configured
    case None => ""
    case Some(u) => TrimTrailingSlashes(u)
  }

  /** Where bundles are submitted. */
  function SendUrl(configured: Option<string>): (url: string)
  {
    BaseUrl(configured) + "/api/transactions/send"
  }

  /** Where unsigned bundles are requested. */
  function BuyUrl(configured: Option<string>): (url: string)
  {
    BaseUrl(configured) + "/api/tokens/buy"
  }

  /** The endpoint paths are joined with exactly one slash: however many slashes the
      configured URL ends with, the character before the path is not another slash. */
  lemma EndpointsJoinCleanly(configured: Option<string>)
    ensures var b := BaseUrl(configured);
      && StartsWith(SendUrl(configured), b) && StartsWith(BuyUrl(configured), b)
      && (b == [] || (SendUrl(configured)[|b| - 1] != '/' && BuyUrl(configured)[|b| - 1] != '/'))
  {
    var b := BaseUrl(configured);
    assert SendUrl(configured)[..|b|] == b;
    assert BuyUrl(configured)[..|b|] == b;
  }

  // ---- one submission: sendBundle ----

  /** The `error` field of the relay's JSON reply, when present and truthy-or-not. */
  datatype ErrorField = ErrorObject(message: string) | ErrorText(text: string)

  /** What `fetchWithTimeout` and `response.json()` gave: the parsed reply, or the message
      of what they threw (a network failure, a timeout, a body that is not JSON). */
  datatype SendReply = Reply(error: Option<ErrorField>, result: Option<string>) | Failed(message: string)

  /** `sendBundle`'s rule: a truthy `error` field is thrown as
      `new Error(data.error.message || data.error || 'Unknown error from bundle server')`,
      otherwise `data.result` is returned. An error object whose message is empty becomes
      the text `[object Object]`; the third alternative is never reached. */
  function SendOutcome(reply: SendReply): (r: Result<Option<string>>)
    ensures reply.Failed? ==> r == Err(reply.message)
    ensures reply.Reply? && reply.error.Some? && reply.error.value.ErrorObject? ==>
      r == Err(if reply.error.value.message != "" then reply.error.value.message else "[object Object]")
    ensures reply.Reply? && (reply.error.None? || reply.error.value == ErrorText("")) ==> r == Ok(reply.result)
    ensures reply.Reply? && reply.error.Some? && reply.error.value.ErrorText? && reply.error.value.text != "" ==>
      r == Err(reply.error.value.text)
  {
    match reply
    case Failed(m) => Err(m)
    case Reply(error, result) =>
      match error
      case None => Ok(result)
      case Some(ErrorObject(m)) => Err(if m != "" then m else "[object Object]")
      case Some(ErrorText(t)) => if t == "" then Ok(result) else Err(t)
  }

  // ---- the submission loop of executeMoonBuy ----

  /** What the pipeline does that the outside world sees, in order. */
  datatype Event =
    | RequestBundles(url: string, walletAddresses: seq<string>, tokenAddress: string,
                     solAmount: Number, amounts: Option<seq<Number>>)
    | RateCheck(wait: Option<int>)
    | SendBundle(url: string, transactions: seq<string>)
    | Pause(ms: int)

  /** The relay as the submission loop meets it: the configured server URL, the clock
      readings of the `i`-th rate check, and the relay's reply to the `i`-th send. */
  datatype Network = Network(serverUrl: Option<string>, clock: nat -> Reading, replies: nat -> SendReply)

  /** Submitting bundles `i..`: the results or the first error, the events, and the
      limiter state left behind. */
  datatype Submission = Submission(results: Result<seq<Option<string>>>, trace: seq<Event>, limiter: LimiterState)

  const PauseMs := 500

  /** Bundles `i..` submitted in order, from limiter state `s`. */
  function SubmitFrom(s: LimiterState, bundles: seq<Bundle>, i: nat, net: Network): (sub: Submission)
    requires i <= |bundles|
    decreases |bundles| - i
  {
    if i == |bundles| then Submission(Ok([]), [], s)
    else
      var reading := net.clock(i);
      var c := RateStep(s, MaxBundlesPerSecond, reading.now, reading.woke);
      var head := SubmitHead(s, bundles, i, net);
      match SendOutcome(net.replies(i))
      case Err(e) => Submission(Err(e), head, c.next)
      case Ok(v) =>
        var pause := if i < |bundles| - 1 then [Pause(PauseMs)] else [];
        var rest := SubmitFrom(c.next, bundles, i + 1, net);
        Submission(Prepend([v], rest.results), head + pause + rest.trace, rest.limiter)
  }

  function Prepend(done: seq<Option<string>>, r: Result<seq<Option<string>>>): (joined: Result<seq<Option<string>>>)
  {
    match r
    case Ok(rs) => Ok(done + rs)
    case Err(e) => Err(e)
  }

  /** The transactions of the bundles sent, in the order they were sent. */
  function SentBundles(trace: seq<Event>): (sent: seq<seq<string>>)
  {
    if trace == [] then []
    else (if trace[0].SendBundle? then [trace[0].transactions] else []) + SentBundles(trace[1..])
  }

  /** The pauses of `PauseMs` in a trace. */
  function Pauses(trace: seq<Event>): (n: nat)
  {
    if trace == [] then 0 else (if trace[0] == Pause(PauseMs) then 1 else 0) + Pauses(trace[1..])
  }

  lemma {:induction false} TraceCountsAppend(a: seq<Event>, b: seq<Event>)
    ensures SentBundles(a + b) == SentBundles(a) + SentBundles(b)
    ensures Pauses(a + b) == Pauses(a) + Pauses(b)
    decreases |a|
  {
    if a == [] {
      assert a + b == b;
    } else {
      TraceCountsAppend(a[1..], b);
      assert (a + b)[0] == a[0];
      assert (a + b)[1..] == a[1..] + b;
    }
  }

  /** Each send goes to the relay's send endpoint and comes right after a rate check. */
  ghost predicate ChecksBeforeSends(trace: seq<Event>, url: string)
  {
    forall p :: 0 <= p < |trace| && trace[p].SendBundle? ==> trace[p].url == url && 0 < p && trace[p - 1].RateCheck?
  }

  /** The transactions of bundles `i..j`. */
  function TransactionsOf(bundles: seq<Bundle>, i: nat, j: nat): (ts: seq<seq<string>>)
    requires i <= j <= |bundles|
    ensures |ts| == j - i && forall k :: 0 <= k < j - i ==> ts[k] == bundles[i + k].transactions
  {
    seq(j - i, k requires 0 <= k < j - i => bundles[i + k].transactions)
  }

  /** Bundle `k` is the first from `i` on whose submission fails. */
  ghost predicate FirstFailedSend(net: Network, i: nat, n: nat, k: nat)
  {
    i <= k < n && SendOutcome(net.replies(k)).Err? && forall j :: i <= j < k ==> SendOutcome(net.replies(j)).Ok?
  }

  /** The events of one bundle's submission: its rate check and its send. */
  function SubmitHead(s: LimiterState, bundles: seq<Bundle>, i: nat, net: Network): (head: seq<Event>)
    requires i < |bundles|
    ensures |head| == 2 && head[0].RateCheck? && head[1] == SendBundle(SendUrl(net.serverUrl), bundles[i].transactions)
    ensures SentBundles(head) == [bundles[i].transactions] && Pauses(head) == 0
  {
    var reading := net.clock(i);
    var c := RateStep(s, MaxBundlesPerSecond, reading.now, reading.woke);
    var head := [RateCheck(c.wait), SendBundle(SendUrl(net.serverUrl), bundles[i].transactions)];
    assert head[1..] == [head[1]];
    assert head[1..][1..] == [];
    assert SentBundles(head[1..]) == [bundles[i].transactions] + SentBundles(head[1..][1..]);
    assert Pauses(head[1..]) == Pauses(head[1..][1..]);
    head
  }

  /** The submission of bundles `i..` succeeds exactly when no send fails, and then
      yields one result per bundle, in bundle order. */
  lemma {:induction false} SubmitSucceeds(s: LimiterState, bundles: seq<Bundle>, i: nat, net: Network)
    requires i <= |bundles|
    ensures var sub := SubmitFrom(s, bundles, i, net);
      sub.results.Ok? <==> forall k :: i <= k < |bundles| ==> SendOutcome(net.replies(k)).Ok?
    ensures var sub := SubmitFrom(s, bundles, i, net);
      sub.results.Ok? ==>
        && |sub.results.value| == |bundles| - i
        && forall k :: 0 <= k < |bundles| - i ==> SendOutcome(net.replies(i + k)) == Ok(sub.results.value[k])
    decreases |bundles| - i
  {
    if i < |bundles| {
      var reading := net.clock(i);
      var c := RateStep(s, MaxBundlesPerSecond, reading.now, reading.woke);
      SubmitSucceeds(c.next, bundles, i + 1, net);
      var rest := SubmitFrom(c.next, bundles, i + 1, net);
      var sub := SubmitFrom(s, bundles, i, net);
      if SendOutcome(net.replies(i)).Ok? && rest.results.Ok? {
        var v := SendOutcome(net.replies(i)).value;
        assert sub.results.value == [v] + rest.results.value;
        forall k | 0 <= k < |bundles| - i
          ensures SendOutcome(net.replies(i + k)) == Ok(sub.results.value[k])
        {
          if k > 0 {
            assert sub.results.value[k] == rest.results.value[k - 1];
            assert i + k == (i + 1) + (k - 1);
          }
        }
      }
    }
  }

  /** A successful submission of bundles `i..` has sent every bundle once, in order,
      with a pause between consecutive sends. */
  lemma {:induction false} SubmitSendsAll(s: LimiterState, bundles: seq<Bundle>, i: nat, net: Network)
    requires i <= |bundles|
    ensures var sub := SubmitFrom(s, bundles, i, net);
      sub.results.Ok? ==>
        && SentBundles(sub.trace) == TransactionsOf(bundles, i, |bundles|)
        && Pauses(sub.trace) == (if i < |bundles| then |bundles| - i - 1 else 0)
    decreases |bundles| - i
  {
    if i < |bundles| {
      var reading := net.clock(i);
      var c := RateStep(s, MaxBundlesPerSecond, reading.now, reading.woke);
      SubmitSendsAll(c.next, bundles, i + 1, net);
      var rest := SubmitFrom(c.next, bundles, i + 1, net);
      var sub := SubmitFrom(s, bundles, i, net);
      if SendOutcome(net.replies(i)).Ok? {
        var head := SubmitHead(s, bundles, i, net);
        var pause := if i < |bundles| - 1 then [Pause(PauseMs)] else [];
        assert sub.trace == head + pause + rest.trace;
        TraceCountsAppend(head, pause);
        TraceCountsAppend(head + pause, rest.trace);
        assert Pauses(pause) == (if i < |bundles| - 1 then 1 else 0) by {
          if pause != [] { assert pause[1..] == []; }
        }
        assert SentBundles(pause) == [] by {
          if pause != [] { assert pause[1..] == []; }
        }
        assert TransactionsOf(bundles, i, |bundles|) == [bundles[i].transactions] + TransactionsOf(bundles, i + 1, |bundles|);
      }
    }
  }

  /** Every send of a submission goes to the relay's send endpoint right after a rate check. */
  lemma {:induction false} SubmitChecksFirst(s: LimiterState, bundles: seq<Bundle>, i: nat, net: Network)
    requires i <= |bundles|
    ensures ChecksBeforeSends(SubmitFrom(s, bundles, i, net).trace, SendUrl(net.serverUrl))
    decreases |bundles| - i
  {
    if i < |bundles| {
      var reading := net.clock(i);
      var c := RateStep(s, MaxBundlesPerSecond, reading.now, reading.woke);
      SubmitChecksFirst(c.next, bundles, i + 1, net);
      var rest := SubmitFrom(c.next, bundles, i + 1, net);
      var sub := SubmitFrom(s, bundles, i, net);
      var head := SubmitHead(s, bundles, i, net);
      if SendOutcome(net.replies(i)).Ok? {
        var pause := if i < |bundles| - 1 then [Pause(PauseMs)] else [];
        var front := head + pause;
        assert sub.trace == front + rest.trace;
        forall p | 0 <= p < |sub.trace| && sub.trace[p].SendBundle?
          ensures sub.trace[p].url == SendUrl(net.serverUrl) && 0 < p && sub.trace[p - 1].RateCheck?
        {
          if p >= |front| {
            var q := p - |front|;
            assert sub.trace[p] == rest.trace[q];
            assert 0 < q;
            assert sub.trace[p - 1] == rest.trace[q - 1];
          } else {
            assert p == 1;
          }
        }
      } else {
        assert sub.trace == head;
      }
    }
  }

  /** Every pause is one of `PauseMs`, and it falls between two consecutive sends: right
      after a send, and right before the next bundle's rate check. */
  ghost predicate PausesSeparateSends(trace: seq<Event>)
  {
    forall p :: 0 <= p < |trace| && trace[p].Pause? ==>
      trace[p] == Pause(PauseMs) && 0 < p && trace[p - 1].SendBundle? && p + 1 < |trace| && trace[p + 1].RateCheck?
  }

  /** Whatever the relay answers, a submission never pauses before its first send or after
      its last one: each pause sits between a send and the next rate check. */
  lemma {:induction false} SubmitPausesSeparate(s: LimiterState, bundles: seq<Bundle>, i: nat, net: Network)
    requires i <= |bundles|
    ensures var trace := SubmitFrom(s, bundles, i, net).trace;
      PausesSeparateSends(trace) && (i < |bundles| ==> |trace| > 0 && trace[0].RateCheck?)
    decreases |bundles| - i
  {
    if i < |bundles| {
      var reading := net.clock(i);
      var c := RateStep(s, MaxBundlesPerSecond, reading.now, reading.woke);
      SubmitPausesSeparate(c.next, bundles, i + 1, net);
      var rest := SubmitFrom(c.next, bundles, i + 1, net);
      var sub := SubmitFrom(s, bundles, i, net);
      var head := SubmitHead(s, bundles, i, net);
      if SendOutcome(net.replies(i)).Ok? {
        var pause := if i < |bundles| - 1 then [Pause(PauseMs)] else [];
        var front := head + pause;
        assert sub.trace == front + rest.trace;
        forall p | 0 <= p < |sub.trace| && sub.trace[p].Pause?
          ensures sub.trace[p] == Pause(PauseMs) && 0 < p && sub.trace[p - 1].SendBundle?
            && p + 1 < |sub.trace| && sub.trace[p + 1].RateCheck?
        {
          if p >= |front| {
            var q := p - |front|;
            assert sub.trace[p] == rest.trace[q];
            assert sub.trace[p + 1] == rest.trace[q + 1];
            if q == 0 {
              assert false;
            }
            assert sub.trace[p - 1] == rest.trace[q - 1];
          } else {
            assert p == 2 && pause != [];
            assert sub.trace[3] == rest.trace[0];
          }
        }
      } else {
        assert sub.trace == head;
      }
    }
  }

  /** The first failing send decides the result of the submission. */
  lemma {:induction false} FirstErrorIsReported(s: LimiterState, bundles: seq<Bundle>, i: nat, net: Network, k: nat)
    requires FirstFailedSend(net, i, |bundles|, k)
    ensures SubmitFrom(s, bundles, i, net).results == Err(SendOutcome(net.replies(k)).message)
    decreases k - i
  {
    if i < k {
      var reading := net.clock(i);
      var c := RateStep(s, MaxBundlesPerSecond, reading.now, reading.woke);
      assert SendOutcome(net.replies(i)).Ok?;
      assert FirstFailedSend(net, i + 1, |bundles|, k);
      FirstErrorIsReported(c.next, bundles, i + 1, net, k);
    }
  }

  /** Up to the first failing send, every bundle is sent, in order, and no later one. */
  lemma {:induction false} FirstErrorEndsSends(s: LimiterState, bundles: seq<Bundle>, i: nat, net: Network, k: nat)
    requires FirstFailedSend(net, i, |bundles|, k)
    ensures SentBundles(SubmitFrom(s, bundles, i, net).trace) == TransactionsOf(bundles, i, k + 1)
    decreases k - i
  {
    var head := SubmitHead(s, bundles, i, net);
    var sub := SubmitFrom(s, bundles, i, net);
    if i < k {
      var reading := net.clock(i);
      var c := RateStep(s, MaxBundlesPerSecond, reading.now, reading.woke);
      assert SendOutcome(net.replies(i)).Ok?;
      assert FirstFailedSend(net, i + 1, |bundles|, k);
      FirstErrorEndsSends(c.next, bundles, i + 1, net, k);
      var rest := SubmitFrom(c.next, bundles, i + 1, net);
      var pause := [Pause(PauseMs)];
      assert sub.trace == head + pause + rest.trace;
      assert SentBundles(pause) == [] by {
        assert pause[1..] == [];
      }
      TraceCountsAppend(head, pause);
      TraceCountsAppend(head + pause, rest.trace);
      assert TransactionsOf(bundles, i, k + 1) == [bundles[i].transactions] + TransactionsOf(bundles, i + 1, k + 1);
    } else {
      assert sub.trace == head;
      assert TransactionsOf(bundles, i, k + 1) == [bundles[i].transactions];
    }
  }

  /** The first failing send ends the submission with its error message: bundles `i..k`
      have been sent, in order, and no later bundle is. */
  lemma SubmitStopsAtFirstError(s: LimiterState, bundles: seq<Bundle>, i: nat, net: Network, k: nat)
    requires FirstFailedSend(net, i, |bundles|, k)
    ensures var sub := SubmitFrom(s, bundles, i, net);
      && sub.results == Err(SendOutcome(net.replies(k)).message)
      && SentBundles(sub.trace) == TransactionsOf(bundles, i, k + 1)
  {
    FirstErrorIsReported(s, bundles, i, net, k);
    FirstErrorEndsSends(s, bundles, i, net, k);
  }

  /** The number of sends the submission of bundles `i..` makes: up to and including
      the first that fails. */
  function Attempts(net: Network, i: nat, n: nat): (m: nat)
    requires i <= n
    ensures i + m <= n
    decreases n - i
  {
    if i == n then 0
    else if SendOutcome(net.replies(i)).Err? then 1
    else 1 + Attempts(net, i + 1, n)
  }

  /** The clock readings of the rate checks of a submission of `n` bundles. */
  function Readings(net: Network, n: nat): (rs: seq<Reading>)
    ensures |rs| == n && forall i :: 0 <= i < n ==> rs[i] == net.clock(i)
  {
    seq(n, i requires 0 <= i < n => net.clock(i))
  }

  /** The submission loop drives the process-wide limiter through exactly the run of
      checks that `RateLimit` reasons about: one check per send attempted, at the
      readings of the clock. So the limiter's guarantees hold of the bundles sent. */
  lemma {:induction false} SubmitDrivesLimiter(s0: LimiterState, bundles: seq<Bundle>, i: nat, net: Network)
    requires i <= |bundles|
    ensures var sub := SubmitFrom(StateAfter(s0, MaxBundlesPerSecond, Readings(net, |bundles|), i), bundles, i, net);
      sub.limiter == StateAfter(s0, MaxBundlesPerSecond, Readings(net, |bundles|), i + Attempts(net, i, |bundles|))
    decreases |bundles| - i
  {
    if i < |bundles| {
      var rs := Readings(net, |bundles|);
      var s := StateAfter(s0, MaxBundlesPerSecond, rs, i);
      assert CheckAt(s0, MaxBundlesPerSecond, rs, i).next == StateAfter(s0, MaxBundlesPerSecond, rs, i + 1);
      if SendOutcome(net.replies(i)).Ok? {
        SubmitDrivesLimiter(s0, bundles, i + 1, net);
      }
    }
  }

  // ---- executeMoonBuy ----

  datatype Wallet = Wallet(address: string, privateKey: string)

  datatype TokenConfig = TokenConfig(tokenAddress: string, solAmount: Number)

  /** `{ success: true, result }` or `{ success: false, error }`. */
  datatype BuyOutcome = Success(result: seq<Option<string>>) | Failure(error: string)

  /** What the pipeline runs against: the backend's answer to the bundle request (the
      bundles, or the message of the error the request failed with), the keypair
      constructor (`Keypair.fromSecretKey(bs58.decode(key))`, which may throw), the
      transaction library, and the relay. */
  datatype Environment<!Tx, !K> = Environment(
    prepared: Result<seq<RawBundle>>,
    keypair: string -> Result<K>,
    codec: Codec<Tx, K>,
    net: Network)

  /** The outcome handed back, the events, and the limiter state left behind. */
  datatype Run = Run(outcome: BuyOutcome, trace: seq<Event>, limiter: LimiterState)

  function Addresses(wallets: seq<Wallet>): (r: seq<string>)
    ensures |r| == |wallets| && forall i :: 0 <= i < |wallets| ==> r[i] == wallets[i].address
  {
    seq(|wallets|, i requires 0 <= i < |wallets| => wallets[i].address)
  }

  /** Wallet `i` is the first whose private key the keypair constructor rejects, with `e`. */
  ghost predicate FirstBadKey<K>(keypair: string -> Result<K>, wallets: seq<Wallet>, i: int, e: string)
  {
    && 0 <= i < |wallets|
    && keypair(wallets[i].privateKey) == Err(e)
    && forall j :: 0 <= j < i ==> keypair(wallets[j].privateKey).Ok?
  }

  /** `wallets.map(w => Keypair.fromSecretKey(bs58.decode(w.privateKey)))`: one keypair
      per wallet, in wallet order, or the error of the first key that is rejected. */
  function Keypairs<K>(keypair: string -> Result<K>, wallets: seq<Wallet>): (r: Result<seq<K>>)
    ensures r.Ok? <==> forall i :: 0 <= i < |wallets| ==> keypair(wallets[i].privateKey).Ok?
    ensures r.Ok? ==> |r.value| == |wallets|
    ensures r.Ok? ==> forall i :: 0 <= i < |wallets| ==> keypair(wallets[i].privateKey) == Ok(r.value[i])
    ensures r.Err? ==> exists i :: FirstBadKey(keypair, wallets, i, r.message)
    decreases |wallets|
  {
    if wallets == [] then Ok([])
    else
      match keypair(wallets[0].privateKey)
      case Err(e) =>
        assert FirstBadKey(keypair, wallets, 0, e);
        Err(e)
      case Ok(k) =>
        var rest := Keypairs(keypair, wallets[1..]);
        match rest
        case Err(e) =>
          assert exists i :: FirstBadKey(keypair, wallets, i, e) by {
            var i :| FirstBadKey(keypair, wallets[1..], i, e);
            assert FirstBadKey(keypair, wallets, i + 1, e);
          }
          Err(e)
        case Ok(ks) =>
          assert forall i :: 0 < i < |wallets| ==> wallets[i] == wallets[1..][i - 1];
          Ok([k] + ks)
  }

  /** The outcome of a submission as `executeMoonBuy` reports it. */
  function Report(results: Result<seq<Option<string>>>): (outcome: BuyOutcome)
  {
    match results
    case Ok(rs) => Success(rs)
    case Err(e) => Failure(e)
  }

  /** `executeMoonBuy(wallets, tokenConfig, customAmounts)` from limiter state `s`:
      request the bundles for the wallets' addresses, build the keypairs, sign every
      bundle, then submit the signed bundles in order; the first error of any step is
      caught and reported. */
  function MoonBuyRun<Tx, K>(s: LimiterState, wallets: seq<Wallet>, token: TokenConfig,
                             amounts: Option<seq<Number>>, env: Environment<Tx, K>): (r: Run)
    ensures |r.trace| >= 1
    ensures r.trace[0] == RequestBundles(BuyUrl(env.net.serverUrl), Addresses(wallets),
                                         token.tokenAddress, token.solAmount, amounts)
  {
    var request := RequestBundles(BuyUrl(env.net.serverUrl), Addresses(wallets),
                                  token.tokenAddress, token.solAmount, amounts);
    match env.prepared
    case Err(e) => Run(Failure(e), [request], s)
    case Ok(raw) =>
      match Keypairs(env.keypair, wallets)
      case Err(e) => Run(Failure(e), [request], s)
      case Ok(keys) =>
        match SignBundles(env.codec, keys, raw)
        case Err(e) => Run(Failure(e), [request], s)
        case Ok(bundles) =>
          var sub := SubmitFrom(s, bundles, 0, env.net);
          Run(Report(sub.results), [request] + sub.trace, sub.limiter)
  }

  /** A submission already under way: the results and events so far, then the rest. */
  function Continue(results: seq<Option<string>>, log: seq<Event>, sub: Submission): (whole: Submission)
  {
    Submission(Prepend(results, sub.results), log + sub.trace, sub.limiter)
  }

  /** One accepted send moves its result and its events from the rest to what is done. */
  lemma SubmitStep(s: LimiterState, bundles: seq<Bundle>, i: nat, net: Network,
                   results: seq<Option<string>>, log: seq<Event>)
    requires i < |bundles| && SendOutcome(net.replies(i)).Ok?
    ensures var c := RateStep(s, MaxBundlesPerSecond, net.clock(i).now, net.clock(i).woke);
      var pause := if i < |bundles| - 1 then [Pause(PauseMs)] else [];
      Continue(results, log, SubmitFrom(s, bundles, i, net))
        == Continue(results + [SendOutcome(net.replies(i)).value],
                    log + SubmitHead(s, bundles, i, net) + pause,
                    SubmitFrom(c.next, bundles, i + 1, net))
  {
    var c := RateStep(s, MaxBundlesPerSecond, net.clock(i).now, net.clock(i).woke);
    var pause := if i < |bundles| - 1 then [Pause(PauseMs)] else [];
    var head := SubmitHead(s, bundles, i, net);
    var rest := SubmitFrom(c.next, bundles, i + 1, net);
    var v := SendOutcome(net.replies(i)).value;
    assert log + (head + pause + rest.trace) == (log + head + pause) + rest.trace;
    if rest.results.Ok? {
      assert results + ([v] + rest.results.value) == (results + [v]) + rest.results.value;
    }
  }

  /** The loop of step 4 on the process-wide limiter: sends the bundles in order, each
      after a rate check, with a pause between sends, until one is refused. */
  method SubmitBundles(limiter: RateLimitState, bundles: seq<Bundle>, net: Network)
    returns (results: Result<seq<Option<string>>>, log: seq<Event>)
    requires limiter.Valid()
    modifies limiter`count, limiter`lastReset
    ensures limiter.Valid()
    ensures Submission(results, log, limiter.State()) == SubmitFrom(old(limiter.State()), bundles, 0, net)
  {
    ghost var whole := SubmitFrom(limiter.State(), bundles, 0, net);
    assert [] + whole.trace == whole.trace;
    if whole.results.Ok? {
      assert [] + whole.results.value == whole.results.value;
    }
    var done: seq<Option<string>> := [];
    log := [];
    var i := 0;
    while i < |bundles|
      invariant 0 <= i <= |bundles|
      invariant limiter.Valid()
      invariant whole == Continue(done, log, SubmitFrom(limiter.State(), bundles, i, net))
      decreases |bundles| - i
    {
      ghost var before := limiter.State();
      var reading := net.clock(i);
      var wait := limiter.CheckRateLimit(reading.now, reading.woke);
      var head := [RateCheck(wait), SendBundle(SendUrl(net.serverUrl), bundles[i].transactions)];
      assert head == SubmitHead(before, bundles, i, net);
      var sent := SendOutcome(net.replies(i));
      if sent.Err? {
        results := Err(sent.message);
        log := log + head;
        return;
      }
      SubmitStep(before, bundles, i, net, done, log);
      var pause := if i < |bundles| - 1 then [Pause(PauseMs)] else [];
      done := done + [sent.value];
      log := log + head + pause;
      i := i + 1;
    }
    results := Ok(done);
    assert log + [] == log;
    assert done + [] == done;
  }

  /** `executeMoonBuy` on the process-wide limiter. */
  method ExecuteMoonBuy<Tx, K>(limiter: RateLimitState, wallets: seq<Wallet>, token: TokenConfig,
                               amounts: Option<seq<Number>>, env: Environment<Tx, K>)
    returns (outcome: BuyOutcome, trace: seq<Event>)
    requires limiter.Valid()
    modifies limiter`count, limiter`lastReset
    ensures limiter.Valid()
    ensures Run(outcome, trace, limiter.State()) == MoonBuyRun(old(limiter.State()), wallets, token, amounts, env)
  {
    var request := RequestBundles(BuyUrl(env.net.serverUrl), Addresses(wallets),
                                  token.tokenAddress, token.solAmount, amounts);
    trace := [request];
    if env.prepared.Err? {
      outcome := Failure(env.prepared.message);
      return;
    }
    var keypairs := Keypairs(env.keypair, wallets);
    if keypairs.Err? {
      outcome := Failure(keypairs.message);
      return;
    }
    var signed := SignBundles(env.codec, keypairs.value, env.prepared.value);
    if signed.Err? {
      outcome := Failure(signed.message);
      return;
    }
    var results, log := SubmitBundles(limiter, signed.value, env.net);
    outcome := Report(results);
    trace := trace + log;
  }

  /** When nothing can be signed, nothing is sent: a failed bundle request, a rejected
      private key or a transaction that cannot be signed leaves only the request in the
      trace, the limiter untouched, and reports that step's error. */
  lemma MoonBuySendsOnlySignedBundles<Tx, K>(s: LimiterState, wallets: seq<Wallet>, token: TokenConfig,
                                              amounts: Option<seq<Number>>, env: Environment<Tx, K>)
    ensures var run := MoonBuyRun(s, wallets, token, amounts, env);
      env.prepared.Err? ==> run.outcome == Failure(env.prepared.message) && |run.trace| == 1 && run.limiter == s
    ensures var run := MoonBuyRun(s, wallets, token, amounts, env);
      env.prepared.Ok? && Keypairs(env.keypair, wallets).Err? ==>
        run.outcome == Failure(Keypairs(env.keypair, wallets).message) && |run.trace| == 1 && run.limiter == s
    ensures var run := MoonBuyRun(s, wallets, token, amounts, env);
      env.prepared.Ok? && Keypairs(env.keypair, wallets).Ok? ==>
        var signed := SignBundles(env.codec, Keypairs(env.keypair, wallets).value, env.prepared.value);
        signed.Err? ==> run.outcome == Failure(signed.message) && |run.trace| == 1 && run.limiter == s
  {
  }

  /** A moon buy succeeds exactly when the bundles arrive, every key and transaction
      is accepted, and the relay accepts every bundle. It then reports one relay result
      per bundle the backend prepared, in order, after sending every signed bundle once,
      in order, each right after a rate check, with `n - 1` pauses for `n` bundles. Whatever
      the relay answers, each pause falls between a send and the next rate check. */
  lemma MoonBuySucceeds<Tx, K>(s: LimiterState, wallets: seq<Wallet>, token: TokenConfig,
                               amounts: Option<seq<Number>>, env: Environment<Tx, K>)
    requires env.prepared.Ok? && Keypairs(env.keypair, wallets).Ok?
    requires SignBundles(env.codec, Keypairs(env.keypair, wallets).value, env.prepared.value).Ok?
    ensures var run := MoonBuyRun(s, wallets, token, amounts, env);
      var bundles := SignBundles(env.codec, Keypairs(env.keypair, wallets).value, env.prepared.value).value;
      && (run.outcome.Success? <==> forall k :: 0 <= k < |bundles| ==> SendOutcome(env.net.replies(k)).Ok?)
      && (run.outcome.Success? ==>
            && |run.outcome.result| == |env.prepared.value|
            && (forall k :: 0 <= k < |bundles| ==> SendOutcome(env.net.replies(k)) == Ok(run.outcome.result[k]))
            && SentBundles(run.trace) == TransactionsOf(bundles, 0, |bundles|)
            && Pauses(run.trace) == (if |bundles| > 0 then |bundles| - 1 else 0))
      && ChecksBeforeSends(run.trace, SendUrl(env.net.serverUrl))
      && PausesSeparateSends(run.trace)
  {
    var keys := Keypairs(env.keypair, wallets).value;
    var bundles := SignBundles(env.codec, keys, env.prepared.value).value;
    var sub := SubmitFrom(s, bundles, 0, env.net);
    var request := MoonBuyRun(s, wallets, token, amounts, env).trace[0];
    SubmitSucceeds(s, bundles, 0, env.net);
    SubmitSendsAll(s, bundles, 0, env.net);
    SubmitChecksFirst(s, bundles, 0, env.net);
    TraceCountsAppend([request], sub.trace);
    assert SentBundles([request]) == [] && Pauses([request]) == 0 by {
      assert [request][1..] == [];
    }
    var trace := [request] + sub.trace;
    forall p | 0 <= p < |trace| && trace[p].SendBundle?
      ensures trace[p].url == SendUrl(env.net.serverUrl) && 0 < p && trace[p - 1].RateCheck?
    {
      assert p > 0;
      assert trace[p] == sub.trace[p - 1];
      assert 0 < p - 1;
      assert trace[p - 1] == sub.trace[p - 2];
    }
    SubmitPausesSeparate(s, bundles, 0, env.net);
    forall p | 0 <= p < |trace| && trace[p].Pause?
      ensures trace[p] == Pause(PauseMs) && 0 < p && trace[p - 1].SendBundle? && p + 1 < |trace| && trace[p + 1].RateCheck?
    {
      assert p > 0;
      assert trace[p] == sub.trace[p - 1];
      assert 0 < p - 1;
      assert trace[p - 1] == sub.trace[p - 2];
      assert trace[p + 1] == sub.trace[p];
    }
  }

  /** The relay's first refusal ends the moon buy: its message is reported, bundles
      `0..k` have been sent, and no later bundle is. */
  lemma MoonBuyStopsAtFirstRefusal<Tx, K>(s: LimiterState, wallets: seq<Wallet>, token: TokenConfig,
                                          amounts: Option<seq<Number>>, env: Environment<Tx, K>, k: nat)
    requires env.prepared.Ok? && Keypairs(env.keypair, wallets).Ok?
    requires SignBundles(env.codec, Keypairs(env.keypair, wallets).value, env.prepared.value).Ok?
    requires FirstFailedSend(env.net, 0, |env.prepared.value|, k)
    ensures var run := MoonBuyRun(s, wallets, token, amounts, env);
      var bundles := SignBundles(env.codec, Keypairs(env.keypair, wallets).value, env.prepared.value).value;
      && run.outcome == Failure(SendOutcome(env.net.replies(k)).message)
      && SentBundles(run.trace) == TransactionsOf(bundles, 0, k + 1)
  {
    var keys := Keypairs(env.keypair, wallets).value;
    var bundles := SignBundles(env.codec, keys, env.prepared.value).value;
    var sub := SubmitFrom(s, bundles, 0, env.net);
    var request := MoonBuyRun(s, wallets, token, amounts, env).trace[0];
    SubmitStopsAtFirstError(s, bundles, 0, env.net, k);
    TraceCountsAppend([request], sub.trace);
    assert SentBundles([request]) == [] by {
      assert [request][1..] == [];
    }
  }
}

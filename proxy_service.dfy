/** The proxy router of `src/utils/proxyService.ts`: an enabled flag persisted under one
    key of the browser's local storage, the fixed first proxy endpoint as prefix, a URL
    classifier, a URL rewriter and a fetch that falls back to a direct request once. */
module Proxy {
  import opened Js
  import opened UriEncoding

  /** The local-storage key of the flag. */
  const StorageKey := "vpnProxyEnabled"

  /** The configured public CORS relays; only the first is ever used. */
  const ProxyEndpoints: seq<string> :=
    ["https://corsproxy.io/?", "https://api.allorigins.win/raw?url=", "https://proxy.cors.sh/"]

  const DirectConnection := "Direct connection"

  /** The text the flag is stored as. */
  function FlagText(enabled: bool): (text: string)
  {
    if enabled then "true" else "false"
  }

  /** The flag as the constructor reads it back: set only by the exact text `true`;
      a missing key reads as `null`, which is not `true`. */
  predicate StoredFlag(storage: map<string, string>)
  {
    StorageKey in storage && storage[StorageKey] == "true"
  }

  /** Reloading after the flag was written restores the flag that was written. */
  lemma ReloadRestoresFlag(storage: map<string, string>, enabled: bool)
    ensures StoredFlag(storage[StorageKey := FlagText(enabled)]) == enabled
  {
  }

  /** Whether a URL is to be sent through the relay: local hosts, relative paths,
      web sockets, `data:` and `blob:` URLs are not; otherwise exactly the absolute
      `http://` and `https://` URLs are. Only `http://` is tested for the local hosts,
      so `https://localhost…` is proxied. */
  function ShouldProxyUrl(url: string): (r: bool)
    ensures r <==> (StartsWith(url, "http://") || StartsWith(url, "https://"))
                   && !StartsWith(url, "http://localhost") && !StartsWith(url, "http://127.0.0.1")
  {
    HttpPrefixes(url);
    if StartsWith(url, "http://localhost") || StartsWith(url, "http://127.0.0.1") || StartsWith(url, "/") then
      false
    else if StartsWith(url, "ws://") || StartsWith(url, "wss://") then
      false
    else if StartsWith(url, "data:") || StartsWith(url, "blob:") then
      false
    else
      StartsWith(url, "http://") || StartsWith(url, "https://")
  }

  /** A URL that starts with an excluded non-HTTP prefix does not start with an HTTP one. */
  lemma HttpPrefixes(url: string)
    ensures StartsWith(url, "http://") || StartsWith(url, "https://") ==>
      !StartsWith(url, "/") && !StartsWith(url, "ws://") && !StartsWith(url, "wss://")
      && !StartsWith(url, "data:") && !StartsWith(url, "blob:")
  {
    if StartsWith(url, "http://") || StartsWith(url, "https://") {
      assert url[0] == 'h' by {
        if StartsWith(url, "http://") { StartsWithAt(url, "http://", 0); }
        else { StartsWithAt(url, "https://", 0); }
      }
      if StartsWith(url, "/") { StartsWithAt(url, "/", 0); }
      if StartsWith(url, "ws://") { StartsWithAt(url, "ws://", 0); }
      if StartsWith(url, "wss://") { StartsWithAt(url, "wss://", 0); }
      if StartsWith(url, "data:") { StartsWithAt(url, "data:", 0); }
      if StartsWith(url, "blob:") { StartsWithAt(url, "blob:", 0); }
    }
  }

  /** Secure local URLs are proxied, plain ones are not. */
  lemma LocalHttpsIsProxied(url: string)
    ensures StartsWith(url, "https://localhost") ==> ShouldProxyUrl(url)
    ensures StartsWith(url, "http://localhost") ==> !ShouldProxyUrl(url)
  {
    if StartsWith(url, "https://localhost") {
      assert url[..8] == url[..17][..8];
      assert StartsWith(url, "https://");
      StartsWithAt(url, "https://localhost", 4);
      if StartsWith(url, "http://localhost") { StartsWithAt(url, "http://localhost", 4); }
      if StartsWith(url, "http://127.0.0.1") { StartsWithAt(url, "http://127.0.0.1", 4); }
    }
  }

  /** `RequestInit`, as far as the router touches it. */
  datatype RequestInit = RequestInit(requestMethod: Option<string>, headers: Option<map<string, string>>, body: Option<string>)

  /** `{...options, headers: {...options?.headers}}`: the caller's options with a copy
      of their headers, or no headers at all when there were none. */
  function EnhancedOptions(options: Option<RequestInit>): (r: RequestInit)
    ensures options.Some? ==> r.requestMethod == options.value.requestMethod && r.body == options.value.body
    ensures options.Some? && options.value.headers.Some? ==> r.headers == options.value.headers
    ensures r.headers.Some? && (options.None? || options.value.headers.None? ==> r.headers.value == map[])
    ensures options.None? ==> r == RequestInit(None, Some(map[]), None)
  {
    match options
    case None => RequestInit(None, Some(map[]), None)
    case Some(o) => RequestInit(o.requestMethod, Some(if o.headers.Some? then o.headers.value else map[]), o.body)
  }

  /** One call of the platform's original `fetch`. */
  datatype Call = Call(url: string, options: Option<RequestInit>)

  /** What one call of the original `fetch` gave: a response with its status, or a thrown error. */
  datatype FetchOutcome = Response(status: int, body: string) | Thrown(error: string)

  /** `response.ok`: a status in the range 200 to 299. */
  predicate Succeeded(o: FetchOutcome)
  {
    o.Response? && 200 <= o.status <= 299
  }

  datatype Status = Status(active: bool, endpoint: string)

  class ProxyService {
    var isEnabled: bool
    var proxyUrl: string
    /** The browser's local storage, which the service reads once and writes on every change. */
    var storage: map<string, string>
    const proxyEndpoints: seq<string>

    ghost predicate Valid()
      reads this
    {
      proxyEndpoints == ProxyEndpoints && proxyUrl == proxyEndpoints[0]
    }

    /** Loads the flag from storage; the prefix is always the first endpoint. */
    constructor (savedStorage: map<string, string>)
      ensures Valid()
      ensures isEnabled == StoredFlag(savedStorage)
      ensures proxyUrl == ProxyEndpoints[0]
      ensures storage == savedStorage
    {
      proxyEndpoints := ProxyEndpoints;
      storage := savedStorage;
      isEnabled := StoredFlag(savedStorage);
      proxyUrl := ProxyEndpoints[0];
    }

    method Enable()
      requires Valid()
      modifies this`isEnabled, this`storage
      ensures Valid()
      ensures isEnabled
      ensures storage == old(storage)[StorageKey := "true"]
    {
      isEnabled := true;
      storage := storage[StorageKey := "true"];
    }

    method Disable()
      requires Valid()
      modifies this`isEnabled, this`storage
      ensures Valid()
      ensures !isEnabled
      ensures storage == old(storage)[StorageKey := "false"]
    {
      isEnabled := false;
      storage := storage[StorageKey := "false"];
    }

    /** Flips the flag, persists it and returns the new value. */
    method Toggle() returns (enabled: bool)
      requires Valid()
      modifies this`isEnabled, this`storage
      ensures Valid()
      ensures enabled == !old(isEnabled) && isEnabled == enabled
      ensures storage == old(storage)[StorageKey := FlagText(enabled)]
      ensures StoredFlag(storage) == enabled
    {
      if isEnabled {
        Disable();
      } else {
        Enable();
      }
      enabled := isEnabled;
    }

    function IsActive(): (active: bool)
      reads this
      ensures active == isEnabled
    {
      isEnabled
    }

    /** The URL a request is actually sent to. */
    function WrapUrl(url: string): (r: string)
      reads this
      ensures !isEnabled || !ShouldProxyUrl(url) ==> r == url
      ensures isEnabled && ShouldProxyUrl(url) ==>
        StartsWith(r, proxyUrl) && DecodeURIComponent(r[|proxyUrl|..]) == Some(url)
      ensures isEnabled && ShouldProxyUrl(url) ==>
        forall i :: |proxyUrl| <= i < |r| ==> EncodedChar(r[i])
      ensures isEnabled && ShouldProxyUrl(url) ==> r == proxyUrl + EncodeURIComponent(url)
    {
      if !isEnabled || !ShouldProxyUrl(url) then url
      else
        var r := proxyUrl + EncodeURIComponent(url);
        assert r[|proxyUrl|..] == EncodeURIComponent(url);
        DecodeEncode(url);
        r
    }

    /** `fetch(url, options)`: `first` is what the original fetch gives the first call and
        `second` what it would give a second. Returns the outcome handed to the caller
        (a thrown error stays thrown) and the calls made, in order. */
    method Fetch(url: string, options: Option<RequestInit>, first: FetchOutcome, second: FetchOutcome)
      returns (outcome: FetchOutcome, calls: seq<Call>)
      ensures 1 <= |calls| <= 2
      ensures calls[0] == Call(WrapUrl(url), Some(EnhancedOptions(options)))
      ensures |calls| == 2 <==> isEnabled && !Succeeded(first)
      ensures |calls| == 2 ==> calls[1] == Call(url, options) && outcome == second
      ensures |calls| == 1 ==> outcome == first
      ensures !isEnabled ==> calls == [Call(url, Some(EnhancedOptions(options)))] && outcome == first
    {
      var proxiedUrl := WrapUrl(url);
      var enhancedOptions := EnhancedOptions(options);
      calls := [Call(proxiedUrl, Some(enhancedOptions))];
      if first.Response? {
        if !Succeeded(first) && isEnabled {
          calls := calls + [Call(url, options)];
          outcome := second;
        } else {
          outcome := first;
        }
      } else {
        if isEnabled {
          calls := calls + [Call(url, options)];
          outcome := second;
        } else {
          outcome := first;
        }
      }
    }

    function GetStatus(): (s: Status)
      reads this
      ensures s.active == isEnabled
      ensures s.endpoint == if isEnabled then proxyUrl else DirectConnection
    {
      Status(isEnabled, if isEnabled then proxyUrl else DirectConnection)
    }
  }

  /** The status names the first configured relay when active, and reads
      "Direct connection" exactly when inactive. */
  lemma StatusEndpoint(p: ProxyService)
    requires p.Valid()
    ensures p.GetStatus().active ==> p.GetStatus().endpoint == ProxyEndpoints[0]
    ensures p.GetStatus().endpoint == DirectConnection <==> !p.GetStatus().active
  {
    assert ProxyEndpoints[0][0] == 'h';
  }
}

/**
 * The worker's entry point (the default export's fetch in src/index.js): a
 * first-match-wins dispatch on the request's path and method. The WHATWG URL
 * object is a record of the fields the router reads or writes, as their
 * getters return them (so `protocol` carries its trailing colon).
 */
module Router {
  datatype Url = Url(protocol: string, hostname: string, port: string, pathname: string, search: string)

  /** An incoming request; the verb is the normalised method the platform reports. */
  datatype Request = Request(verb: string, url: Url)

  /** Where a request goes: forwarded to the rewritten URL, to the contact handler, or to the asset store. */
  datatype Route = Proxy(target: Url) | ContactForm | StaticAssets

  const AutoconfigPrefix: string := "/.well-known/autoconfig/"
  const AutodiscoverPrefix: string := "/autodiscover/"
  const ContactPath: string := "/api/contact"

  const UpstreamHost: string := "lykkebovej44.dalsgaard.net"
  /** `url.port = 8447` stores the number's decimal text. */
  const UpstreamPort: string := "8447"
  /** `url.protocol = "https"` stores the scheme, which the getter returns with its colon. */
  const UpstreamProtocol: string := "https:"

  /** The two mail-autoconfiguration prefixes of `pathname.startsWith`. */
  predicate IsMailConfigPath(path: string)
  {
    AutoconfigPrefix <= path || AutodiscoverPrefix <= path
  }

  /**
   * The in-place rewrite of the proxied URL: host, port and scheme become the
   * fixed upstream ones and every other part is kept. 8447 is not the default
   * port of https, so the protocol assignment does not clear the port.
   */
  function ToUpstream(u: Url): (t: Url)
    ensures t.hostname == UpstreamHost && t.port == UpstreamPort && t.protocol == UpstreamProtocol
    ensures t.pathname == u.pathname && t.search == u.search
  {
    u.(hostname := UpstreamHost, port := UpstreamPort, protocol := UpstreamProtocol)
  }

  /** fetch: the proxy prefixes first, then the contact endpoint for POST, then the assets. */
  function RouteRequest(r: Request): (route: Route)
    ensures route.Proxy? ==> route.target == ToUpstream(r.url)
  {
    if IsMailConfigPath(r.url.pathname) then Proxy(ToUpstream(r.url))
    else if r.url.pathname == ContactPath && r.verb == "POST" then ContactForm
    else StaticAssets
  }

  /** Rewriting keeps exactly the path and query: two URLs rewrite alike exactly when those agree. */
  lemma ToUpstreamKeepsOnlyPathAndQuery(a: Url, b: Url)
    ensures ToUpstream(a) == ToUpstream(b) <==> a.pathname == b.pathname && a.search == b.search
    ensures ToUpstream(ToUpstream(a)) == ToUpstream(a)
  {
  }

  /** A mail-autoconfiguration path is proxied whatever the verb, so it never reaches the contact handler or the assets. */
  lemma MailConfigAlwaysProxied(r: Request, verb: string)
    requires IsMailConfigPath(r.url.pathname)
    ensures RouteRequest(r) == Proxy(ToUpstream(r.url))
    ensures RouteRequest(r.(verb := verb)) == RouteRequest(r)
  {
  }

  /** Proxying happens exactly on the two prefixes. */
  lemma ProxiedExactlyOnMailConfigPaths(r: Request)
    ensures RouteRequest(r).Proxy? <==> IsMailConfigPath(r.url.pathname)
  {
  }

  /** The contact endpoint is not under either proxy prefix. */
  lemma ContactPathIsNotMailConfig()
    ensures !IsMailConfigPath(ContactPath)
  {
    assert ContactPath[1] != AutoconfigPrefix[1];
    assert ContactPath[2] != AutodiscoverPrefix[2];
  }

  /** The contact handler runs exactly for a POST to /api/contact. */
  lemma ContactExactlyOnPostToEndpoint(r: Request)
    ensures RouteRequest(r) == ContactForm <==> r.url.pathname == ContactPath && r.verb == "POST"
  {
    ContactPathIsNotMailConfig();
  }

  /**
   * Everything else goes to the assets, whatever the verb: any other method
   * on /api/contact, and any method on any other path.
   */
  lemma AssetsOtherwise(r: Request)
    ensures RouteRequest(r) == StaticAssets
        <==> !IsMailConfigPath(r.url.pathname) && !(r.url.pathname == ContactPath && r.verb == "POST")
    ensures r.url.pathname == ContactPath && r.verb != "POST" ==> RouteRequest(r) == StaticAssets
  {
    ContactPathIsNotMailConfig();
  }
}

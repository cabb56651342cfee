/** The request value that get_release_information and download_file hand to
    `requests.get`: the URL, the optional proxies mapping and the replaced
    User-agent header. Sending it is outside the model. */
module Http {
  import opened Results

  const UserAgent: string := "Mozilla/5.0"

  datatype Get = Get(url: string, proxies: Option<map<string, string>>, userAgent: string)

  /** The proxies mapping: absent when no proxy is configured, otherwise the
      same proxy for both schemes. An empty proxy string still yields a
      mapping, because the test is `is not None`. */
  function Proxies(proxy: Option<string>): (r: Option<map<string, string>>)
    ensures r.None? <==> proxy.None?
    ensures r.Some? ==> r.value.Keys == {"http", "https"}
    ensures r.Some? ==> r.value["http"] == proxy.value && r.value["https"] == proxy.value
  {
    match proxy
    case None => None
    case Some(p) => Some(map["http" := p, "https" := p])
  }

  /** The GET request both functions issue for `url`. */
  function Request(url: string, proxy: Option<string>): (r: Get)
    ensures r.url == url && r.userAgent == UserAgent
    ensures r.proxies.Some? <==> proxy.Some?
  {
    Get(url, Proxies(proxy), UserAgent)
  }
}

/** Resolution of the streaming endpoint the watchdog connects to (`getTargetURL`). */
module Target {
  import opened Wrappers
  import opened GoStrings
  import opened Config

  const DefaultPath: string := "/streaming"
  const SecureScheme: string := "wss://"
  const HttpsPrefix: string := "https://"
  const MissingTargetError: string :=
    "target.domain or target.url must be specified in the configuration file"

  /** Go's `(string, error)` pair; `err == None` plays the part of a nil error. */
  datatype TargetURL = TargetURL(url: string, err: Option<string>)

  /**
   * The domain with at most one leading "https://" removed, and then at most
   * one trailing "/" from what remains; each is removed exactly when present.
   */
  function CleanDomain(domain: string): (clean: string)
    ensures HasPrefix(domain, HttpsPrefix) && HasSuffix(domain[|HttpsPrefix|..], "/") ==>
              HttpsPrefix + clean + "/" == domain
    ensures HasPrefix(domain, HttpsPrefix) && !HasSuffix(domain[|HttpsPrefix|..], "/") ==>
              HttpsPrefix + clean == domain
    ensures !HasPrefix(domain, HttpsPrefix) && HasSuffix(domain, "/") ==> clean + "/" == domain
    ensures !HasPrefix(domain, HttpsPrefix) && !HasSuffix(domain, "/") ==> clean == domain
  {
    TrimSuffix(TrimPrefix(domain, HttpsPrefix), "/")
  }

  /**
   * `getTargetURL`: an explicit URL wins verbatim; otherwise a non-empty
   * domain becomes "wss://<clean domain>/streaming"; otherwise an error
   * together with the empty string.
   */
  function GetTargetURL(cfg: Config): (r: TargetURL)
    ensures cfg.target.url != "" ==> r == TargetURL(cfg.target.url, None)
    ensures cfg.target.url == "" && cfg.target.domain != "" ==>
              r.err == None && r.url == SecureScheme + CleanDomain(cfg.target.domain) + DefaultPath
    ensures cfg.target.url == "" && cfg.target.domain == "" ==>
              r.url == "" && r.err == Some(MissingTargetError)
  {
    if cfg.target.url != "" then
      TargetURL(cfg.target.url, None)
    else if cfg.target.domain != "" then
      TargetURL(SecureScheme + CleanDomain(cfg.target.domain) + DefaultPath, None)
    else
      TargetURL("", Some(MissingTargetError))
  }

  /** Resolution fails exactly when both the URL and the domain are empty. */
  lemma ResolutionFailsIff(cfg: Config)
    ensures GetTargetURL(cfg).err.Some? <==> cfg.target.url == "" && cfg.target.domain == ""
    ensures GetTargetURL(cfg).err.None? ==> GetTargetURL(cfg).url != ""
  {
  }

  /** With a URL configured, the domain does not matter at all. */
  lemma UrlIgnoresDomain(cfg: Config, otherDomain: string)
    requires cfg.target.url != ""
    ensures GetTargetURL(cfg.(target := cfg.target.(domain := otherDomain))) == GetTargetURL(cfg)
  {
  }

  /**
   * A bare host, the same host behind "https://", with a trailing "/", or
   * with both, all clean to the bare host.
   */
  lemma {:induction false} CleanDomainForms(host: string)
    requires !HasPrefix(host, HttpsPrefix) && !HasSuffix(host, "/")
    ensures CleanDomain(host) == host
    ensures CleanDomain(HttpsPrefix + host) == host
    ensures CleanDomain(host + "/") == host
    ensures CleanDomain(HttpsPrefix + host + "/") == host
  {
    TrimPrefixRoundTrip(HttpsPrefix, host);
    TrimPrefixRoundTrip(HttpsPrefix, host + "/");
    assert HttpsPrefix + host + "/" == HttpsPrefix + (host + "/");
    TrimSuffixRoundTrip(host, "/");
  }

  /** Only one trailing "/" is removed. */
  lemma CleanDomainStripsOneSlash(host: string)
    requires !HasPrefix(host, HttpsPrefix) && !HasSuffix(host, "/")
    ensures CleanDomain(HttpsPrefix + host + "//") == host + "/"
  {
  }

  /** An "http://" prefix is kept as part of the host. */
  lemma CleanDomainKeepsHttp(rest: string)
    requires rest != [] && !HasSuffix(rest, "/")
    ensures CleanDomain("http://" + rest) == "http://" + rest
  {
    var d := "http://" + rest;
    assert d[4] == ':';
    assert !HasPrefix(d, HttpsPrefix);
  }

  /** The example domain of the configuration template, spelled four ways. */
  lemma MisskeyDomainForms()
    ensures CleanDomain("misskey.io") == "misskey.io"
    ensures CleanDomain("https://" + "misskey.io") == "misskey.io"
    ensures CleanDomain("https://" + "misskey.io" + "/") == "misskey.io"
    ensures CleanDomain("http://" + "misskey.io") == "http://" + "misskey.io"
  {
    var host := "misskey.io";
    assert !HasPrefix(host, HttpsPrefix) by { assert host[..8][0] == 'm'; }
    assert !HasSuffix(host, "/") by { assert host[|host| - 1..][0] == 'o'; }
    CleanDomainForms(host);
    CleanDomainKeepsHttp(host);
  }
}

/** The API-key guard of the mock-data endpoints: a request passes only
    with an `x-api-key` header equal to the configured key. */
module ApiKeyGuard {
  import opened Common

  /** A refusal with HTTP status 403 and its message. */
  datatype Forbidden = Forbidden(message: string)

  const MissingKey := "API key is missing"
  const InvalidKey := "Invalid API key"

  /** The guard holds the `API_KEY` setting read once when it is built;
      `None` when the setting is absent. */
  datatype Guard = Guard(apiKey: Option<string>)

  /** The guard built from a configuration. */
  function NewGuard(config: map<string, string>): (g: Guard)
    ensures g.apiKey.Some? <==> "API_KEY" in config
    ensures g.apiKey.Some? ==> g.apiKey.value == config["API_KEY"]
  {
    Guard(if "API_KEY" in config then Some(config["API_KEY"]) else None)
  }

  /** canActivate: a missing or empty header is refused as missing, before
      any comparison; a header other than the configured key is refused as
      invalid; otherwise the request may proceed. The answer is never
      `false`. */
  function CanActivate(g: Guard, header: Option<string>): (r: Result<bool, Forbidden>)
    ensures r.Success? ==> r.value
    ensures r.Success? <==> header.Some? && header.value != "" && g.apiKey == header
    ensures header.None? || header.value == "" ==> r == Failure(Forbidden(MissingKey))
    ensures header.Some? && header.value != "" && g.apiKey != header ==> r == Failure(Forbidden(InvalidKey))
  {
    if header.None? || header.value == "" then Failure(Forbidden(MissingKey))
    else if g.apiKey != header then Failure(Forbidden(InvalidKey))
    else Success(true)
  }

  /** With no key configured, every request is refused: as missing when it
      carries no key, as invalid otherwise. */
  lemma UnconfiguredRefusesAll(header: Option<string>)
    ensures CanActivate(Guard(None), header).Failure?
    ensures header.Some? && header.value != "" ==>
              CanActivate(Guard(None), header) == Failure(Forbidden(InvalidKey))
  {
  }

  /** An empty configured key lets nothing through: the empty header is
      refused as missing before the comparison. */
  lemma EmptyKeyRefusesAll(header: Option<string>)
    ensures CanActivate(Guard(Some("")), header).Failure?
  {
  }

  lemma GuardExamples()
    ensures CanActivate(Guard(Some("secret")), Some("secret")) == Success(true)
    ensures CanActivate(Guard(Some("secret")), Some("wrong")) == Failure(Forbidden(InvalidKey))
    ensures CanActivate(Guard(Some("secret")), None) == Failure(Forbidden(MissingKey))
    ensures CanActivate(Guard(Some("secret")), Some("")) == Failure(Forbidden(MissingKey))
  {
  }
}

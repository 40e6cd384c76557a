/** `load_config` of src/config.rs: read the configuration file, parse it, and
    accept it only when its domain is one of the four the campus portal knows.

    Reading the file and the YAML parser are inputs: `read` is what reading the
    file produced and `parse` what the parser makes of a text (`None` for text it
    rejects, such as one without a username or password). */
module Config {
  import opened Base

  /** The configuration after parsing, with the domain's default applied. */
  datatype Config = Config(username: string, password: string, domain: string)

  /** What the parser finds in the file; `domain` may be absent. */
  datatype Fields = Fields(username: string, password: string, domain: Option<string>)

  /** What reading the configuration file produced. */
  datatype ReadResult = Read(text: string) | NotFound | ReadFailed

  datatype ConfigError =
    | ConfigMissing           // "Config file … not found. Please create one."
    | IoError                 // any other read error
    | ParseError              // the parser's error
    | InvalidDomain(domain: string)   // "Invalid domain config: …"

  /** The empty domain and the three carrier suffixes. */
  const AllowedDomains: set<string> := {"", "@dx", "@lt", "@yd"}

  /** `#[serde(default)]` on `domain`: an absent domain becomes the empty string. */
  function WithDefaults(f: Fields): Config {
    Config(f.username, f.password, if f.domain.Some? then f.domain.value else "")
  }

  /** The domain check that ends `load_config`. */
  function CheckDomain(c: Config): (r: Result<Config, ConfigError>)
    ensures r.Ok? <==> c.domain in AllowedDomains
    ensures r.Ok? ==> r.value == c
    ensures r.Err? ==> r.error == InvalidDomain(c.domain)
  {
    if c.domain == "" || c.domain == "@dx" || c.domain == "@lt" || c.domain == "@yd" then Ok(c)
    else Err(InvalidDomain(c.domain))
  }

  /** `load_config`: the read error, then the parse error, then the domain check. */
  function LoadConfig(read: ReadResult, parse: string -> Option<Fields>): Result<Config, ConfigError> {
    match read
    case NotFound => Err(ConfigMissing)
    case ReadFailed => Err(IoError)
    case Read(text) =>
      match parse(text)
      case None => Err(ParseError)
      case Some(fields) => CheckDomain(WithDefaults(fields))
  }

  /** A configuration is loaded exactly when the file was read, parsed, and its
      domain (after the default) is allowed; it is then the parsed one, unchanged. */
  lemma LoadConfigAccepts(read: ReadResult, parse: string -> Option<Fields>)
    ensures LoadConfig(read, parse).Ok? <==>
      read.Read? && parse(read.text).Some? && WithDefaults(parse(read.text).value).domain in AllowedDomains
    ensures LoadConfig(read, parse).Ok? ==> LoadConfig(read, parse).value == WithDefaults(parse(read.text).value)
  {
  }

  /** A read or parse failure is reported before the domain is looked at: the
      result is that failure, whatever the parser would have made of the text. */
  lemma FailuresBeforeDomain(read: ReadResult, parse: string -> Option<Fields>, other: string -> Option<Fields>)
    ensures !read.Read? ==> LoadConfig(read, parse) == LoadConfig(read, other)
    ensures read == NotFound ==> LoadConfig(read, parse) == Err(ConfigMissing)
    ensures read == ReadFailed ==> LoadConfig(read, parse) == Err(IoError)
    ensures read.Read? && parse(read.text).None? ==> LoadConfig(read, parse) == Err(ParseError)
    ensures LoadConfig(read, parse).Err? && LoadConfig(read, parse).error.InvalidDomain? ==>
      read.Read? && parse(read.text).Some?
  {
  }

  /** A file without a domain loads, with the empty domain. */
  lemma AbsentDomainAccepted(text: string, parse: string -> Option<Fields>)
    requires parse(text).Some? && parse(text).value.domain.None?
    ensures LoadConfig(Read(text), parse) == Ok(Config(parse(text).value.username, parse(text).value.password, ""))
  {
  }

  /** Only the domain decides: the username and password are never inspected. */
  lemma CredentialsNotInspected(c: Config, username: string, password: string)
    ensures CheckDomain(c).Ok? == CheckDomain(Config(username, password, c.domain)).Ok?
  {
  }

  /** The match is exact: any upper-case letter or white space in the domain
      rejects it, so `@DX`, `@Dx` and ` @dx` are all invalid. */
  lemma VariantsRejected(d: string, k: nat)
    requires k < |d| && (('A' <= d[k] <= 'Z') || d[k] == ' ' || d[k] == '\t')
    ensures d !in AllowedDomains
    ensures CheckDomain(Config("", "", d)) == Err(InvalidDomain(d))
  {
  }
}

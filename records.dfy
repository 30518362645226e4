/** The persisted profile: `ConfigFile` and `Token`. */
module Records {
  import opened Wrappers

  /** A token secret with its absolute expiry in Unix seconds; 0 stands for
      "no expiry was given, treat as expired". */
  datatype Token = Token(secret: string, exp: nat)

  /** The value of a profile: what is serialised to its file, what
      `read_config` and `list_configs` return. */
  datatype ConfigRecord = ConfigRecord(
    version: nat,
    name: string,
    clientId: string,
    clientSecret: string,
    scopes: seq<string>,
    redirectUrl: string,
    refreshToken: Option<string>,
    idToken: Option<Token>,
    accessToken: Option<Token>)

  /** The schema version every new profile gets. */
  const CurrentVersion: nat := 1

  /** A profile held in memory, whose fields the login and refresh flows and
      the command line overwrite in place. */
  class ConfigFile {
    var version: nat
    var name: string
    var clientId: string
    var clientSecret: string
    var scopes: seq<string>
    var redirectUrl: string
    var refreshToken: Option<string>
    var idToken: Option<Token>
    var accessToken: Option<Token>

    /** The fields as one value. */
    function Record(): ConfigRecord
      reads this
    {
      ConfigRecord(version, name, clientId, clientSecret, scopes, redirectUrl,
                   refreshToken, idToken, accessToken)
    }

    /** `ConfigFile::new`: schema version 1, the given identity, the scopes in
        the given order, and no tokens yet. */
    constructor New(name: string, clientId: string, clientSecret: string,
                    scopes: seq<string>, redirectUrl: string)
      ensures Record() == ConfigRecord(CurrentVersion, name, clientId, clientSecret,
                                       scopes, redirectUrl, None, None, None)
    {
      this.version := CurrentVersion;
      this.name := name;
      this.clientId := clientId;
      this.clientSecret := clientSecret;
      this.scopes := scopes;
      this.redirectUrl := redirectUrl;
      this.refreshToken := None;
      this.idToken := None;
      this.accessToken := None;
    }

    /** An owned profile as `read_config` hands it to a `let mut` binding. */
    constructor FromRecord(r: ConfigRecord)
      ensures Record() == r
    {
      version := r.version;
      name := r.name;
      clientId := r.clientId;
      clientSecret := r.clientSecret;
      scopes := r.scopes;
      redirectUrl := r.redirectUrl;
      refreshToken := r.refreshToken;
      idToken := r.idToken;
      accessToken := r.accessToken;
    }
  }
}

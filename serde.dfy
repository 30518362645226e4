/** The derived `Serialize`/`Deserialize` of a profile, with the JSON text
    kept abstract: a file holds a stream of tokens, and the decoder accepts
    exactly what the encoder writes. */
module Serde {
  import opened Wrappers
  import opened Records

  datatype Tok = TNum(n: nat) | TStr(s: string) | TNull | TSome

  function EncodeStrings(ss: seq<string>): (ts: seq<Tok>)
    ensures |ts| == |ss|
  {
    if ss == [] then [] else [TStr(ss[0])] + EncodeStrings(ss[1..])
  }

  function EncodeOptString(o: Option<string>): seq<Tok> {
    match o
    case None => [TNull]
    case Some(s) => [TSome, TStr(s)]
  }

  function EncodeOptToken(o: Option<Token>): seq<Tok> {
    match o
    case None => [TNull]
    case Some(t) => [TSome, TStr(t.secret), TNum(t.exp)]
  }

  /** `serde_json::to_writer` for a profile. */
  function Encode(c: ConfigRecord): seq<Tok> {
    var tokens := EncodeOptString(c.refreshToken) + EncodeOptToken(c.idToken) + EncodeOptToken(c.accessToken);
    [TNum(c.version), TStr(c.name), TStr(c.clientId), TStr(c.clientSecret)]
    + ([TNum(|c.scopes|)] + EncodeStrings(c.scopes) + [TStr(c.redirectUrl)] + tokens)
  }

  function ReadNat(ts: seq<Tok>): Option<(nat, seq<Tok>)> {
    if |ts| > 0 && ts[0].TNum? then Some((ts[0].n, ts[1..])) else None
  }

  function ReadString(ts: seq<Tok>): Option<(string, seq<Tok>)> {
    if |ts| > 0 && ts[0].TStr? then Some((ts[0].s, ts[1..])) else None
  }

  function ReadStrings(count: nat, ts: seq<Tok>): Option<(seq<string>, seq<Tok>)>
    decreases count
  {
    if count == 0 then Some(([], ts))
    else
      match ReadString(ts)
      case None => None
      case Some((s, rest)) =>
        match ReadStrings(count - 1, rest)
        case None => None
        case Some((ss, rest')) => Some(([s] + ss, rest'))
  }

  function ReadOptString(ts: seq<Tok>): Option<(Option<string>, seq<Tok>)> {
    if |ts| > 0 && ts[0] == TNull then Some((None, ts[1..]))
    else if |ts| > 0 && ts[0] == TSome then
      match ReadString(ts[1..])
      case None => None
      case Some((s, rest)) => Some((Some(s), rest))
    else None
  }

  function ReadOptToken(ts: seq<Tok>): Option<(Option<Token>, seq<Tok>)> {
    if |ts| > 0 && ts[0] == TNull then Some((None, ts[1..]))
    else if |ts| > 0 && ts[0] == TSome then
      match ReadString(ts[1..])
      case None => None
      case Some((s, rest)) =>
        match ReadNat(rest)
        case None => None
        case Some((e, rest')) => Some((Some(Token(s, e)), rest'))
    else None
  }

  /** `serde_json::from_reader` for a profile: `None` when the stream is not
      exactly one encoded profile (trailing content is refused as well). */
  function Decode(ts: seq<Tok>): Option<ConfigRecord> {
    match ReadNat(ts)
    case None => None
    case Some((version, rest)) => DecodeIdentity(version, rest)
  }

  function DecodeIdentity(version: nat, ts: seq<Tok>): Option<ConfigRecord> {
    match ReadString(ts)
    case None => None
    case Some((name, t1)) =>
      match ReadString(t1)
      case None => None
      case Some((clientId, t2)) =>
        match ReadString(t2)
        case None => None
        case Some((clientSecret, t3)) => DecodeScopes(version, name, clientId, clientSecret, t3)
  }

  function DecodeScopes(version: nat, name: string, clientId: string, clientSecret: string,
                        ts: seq<Tok>): Option<ConfigRecord>
  {
    match ReadNat(ts)
    case None => None
    case Some((count, t1)) =>
      match ReadStrings(count, t1)
      case None => None
      case Some((scopes, t2)) =>
        match ReadString(t2)
        case None => None
        case Some((redirectUrl, t3)) =>
          DecodeTokens(ConfigRecord(version, name, clientId, clientSecret, scopes, redirectUrl,
                                    None, None, None), t3)
  }

  /** Fills the three optional fields of `c` from `ts`. */
  function DecodeTokens(c: ConfigRecord, ts: seq<Tok>): Option<ConfigRecord> {
    match ReadOptString(ts)
    case None => None
    case Some((refreshToken, t1)) =>
      match ReadOptToken(t1)
      case None => None
      case Some((idToken, t2)) =>
        match ReadOptToken(t2)
        case None => None
        case Some((accessToken, t3)) =>
          if t3 != [] then None
          else Some(c.(refreshToken := refreshToken, idToken := idToken, accessToken := accessToken))
  }

  lemma {:induction false} ReadStringsEncoded(ss: seq<string>, rest: seq<Tok>)
    ensures ReadStrings(|ss|, EncodeStrings(ss) + rest) == Some((ss, rest))
    decreases |ss|
  {
    if ss != [] {
      var tail := EncodeStrings(ss[1..]) + rest;
      assert EncodeStrings(ss) + rest == [TStr(ss[0])] + tail;
      assert ([TStr(ss[0])] + tail)[1..] == tail;
      assert ReadString([TStr(ss[0])] + tail) == Some((ss[0], tail));
      ReadStringsEncoded(ss[1..], rest);
      assert |ss[1..]| == |ss| - 1;
      assert ReadStrings(|ss| - 1, tail) == Some((ss[1..], rest));
      assert [ss[0]] + ss[1..] == ss;
      assert ReadStrings(|ss|, [TStr(ss[0])] + tail) == Some(([ss[0]] + ss[1..], rest));
    } else {
      assert EncodeStrings(ss) + rest == rest;
    }
  }

  lemma ReadOptStringEncoded(o: Option<string>, rest: seq<Tok>)
    ensures ReadOptString(EncodeOptString(o) + rest) == Some((o, rest))
  {
    match o
    case None =>
      assert (EncodeOptString(o) + rest)[1..] == rest;
    case Some(s) =>
      assert (EncodeOptString(o) + rest)[1..] == [TStr(s)] + rest;
      assert ([TStr(s)] + rest)[1..] == rest;
  }

  lemma ReadOptTokenEncoded(o: Option<Token>, rest: seq<Tok>)
    ensures ReadOptToken(EncodeOptToken(o) + rest) == Some((o, rest))
  {
    match o
    case None =>
      assert (EncodeOptToken(o) + rest)[1..] == rest;
    case Some(t) =>
      assert (EncodeOptToken(o) + rest)[1..] == [TStr(t.secret), TNum(t.exp)] + rest;
      assert ([TStr(t.secret), TNum(t.exp)] + rest)[1..] == [TNum(t.exp)] + rest;
      assert ([TNum(t.exp)] + rest)[1..] == rest;
  }

  lemma DecodeTokensEncoded(c: ConfigRecord, partial: ConfigRecord)
    requires partial == c.(refreshToken := None, idToken := None, accessToken := None)
    ensures DecodeTokens(partial, EncodeOptString(c.refreshToken) + EncodeOptToken(c.idToken)
                                  + EncodeOptToken(c.accessToken)) == Some(c)
  {
    var t2 := EncodeOptToken(c.accessToken);
    var t1 := EncodeOptToken(c.idToken) + t2;
    var t0 := EncodeOptString(c.refreshToken) + t1;
    assert EncodeOptString(c.refreshToken) + EncodeOptToken(c.idToken) + t2 == t0;
    ReadOptStringEncoded(c.refreshToken, t1);
    ReadOptTokenEncoded(c.idToken, t2);
    ReadOptTokenEncoded(c.accessToken, []);
    assert t2 + [] == t2;
  }

  lemma DecodeScopesEncoded(c: ConfigRecord, tokens: seq<Tok>)
    requires tokens == EncodeOptString(c.refreshToken) + EncodeOptToken(c.idToken)
                       + EncodeOptToken(c.accessToken)
    ensures DecodeScopes(c.version, c.name, c.clientId, c.clientSecret,
                         [TNum(|c.scopes|)] + EncodeStrings(c.scopes) + [TStr(c.redirectUrl)] + tokens)
            == Some(c)
  {
    var t2 := [TStr(c.redirectUrl)] + tokens;
    var t1 := EncodeStrings(c.scopes) + t2;
    assert [TNum(|c.scopes|)] + EncodeStrings(c.scopes) + [TStr(c.redirectUrl)] + tokens
        == [TNum(|c.scopes|)] + t1;
    assert ([TNum(|c.scopes|)] + t1)[1..] == t1;
    ReadStringsEncoded(c.scopes, t2);
    assert t2[1..] == tokens;
    DecodeTokensEncoded(c, ConfigRecord(c.version, c.name, c.clientId, c.clientSecret, c.scopes,
                                        c.redirectUrl, None, None, None));
  }

  /** Reading back what was written yields the same profile, every field
      included, absent optionals too. */
  lemma {:induction false} RoundTrip(c: ConfigRecord)
    ensures Decode(Encode(c)) == Some(c)
  {
    var tokens := EncodeOptString(c.refreshToken) + EncodeOptToken(c.idToken)
                  + EncodeOptToken(c.accessToken);
    var t4 := [TNum(|c.scopes|)] + EncodeStrings(c.scopes) + [TStr(c.redirectUrl)] + tokens;
    var t3 := [TStr(c.clientSecret)] + t4;
    var t2 := [TStr(c.clientId)] + t3;
    var t1 := [TStr(c.name)] + t2;
    var t0 := [TNum(c.version), TStr(c.name), TStr(c.clientId), TStr(c.clientSecret)] + t4;
    assert Encode(c) == t0;
    assert t0[1..] == t1 && t1[1..] == t2 && t2[1..] == t3 && t3[1..] == t4;
    DecodeScopesEncoded(c, tokens);
  }

  /** A truncated (empty) file is not a profile. */
  lemma EmptyIsMalformed()
    ensures Decode([]) == None
  {
  }
}

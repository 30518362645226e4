/** The naive redirect server of the login flows: the connections accepted
    on 127.0.0.1:8080, how `code` and `state` are taken from the first
    request line, and the fixed reply. URL validity and percent-decoding are
    supplied as functions. */
module Callback {
  import opened Wrappers

  /** What `url` decides and does but the model does not spell out: whether
      a string parses as a URL, and the `application/x-www-form-urlencoded`
      decoding of one name or value. */
  datatype UrlCodec = UrlCodec(parses: string -> bool, decode: string -> string)

  /** Unicode `White_Space`, what `split_whitespace` splits on. */
  predicate IsWhitespace(c: char) {
    ('\t' <= c <= '\r') || c == ' ' || c == '\U{85}' || c == '\U{A0}' || c == '\U{1680}'
    || ('\U{2000}' <= c <= '\U{200A}') || c == '\U{2028}' || c == '\U{2029}'
    || c == '\U{202F}' || c == '\U{205F}' || c == '\U{3000}'
  }

  predicate NoWhitespace(s: string) {
    forall i :: 0 <= i < |s| ==> !IsWhitespace(s[i])
  }

  /** The length of the run of non-whitespace characters `s` starts with. */
  function WordLength(s: string): (n: nat)
    ensures n <= |s|
    ensures NoWhitespace(s[..n])
    ensures n < |s| ==> IsWhitespace(s[n])
  {
    if s == [] || IsWhitespace(s[0]) then 0
    else
      var m := WordLength(s[1..]);
      assert s[..1 + m] == [s[0]] + s[1..][..m];
      1 + m
  }

  /** `split_whitespace`: the maximal non-whitespace runs, in order;
      `WordsAreNonEmptyPieces` relates it to splitting at every whitespace
      character. */
  function Words(s: string): (ws: seq<string>)
    ensures forall i :: 0 <= i < |ws| ==> ws[i] != [] && NoWhitespace(ws[i])
    decreases |s|
  {
    if s == [] then []
    else if IsWhitespace(s[0]) then Words(s[1..])
    else
      var n := WordLength(s);
      [s[..n]] + Words(s[n..])
  }

  /** The pieces of `s` between single whitespace characters, empty pieces
      included (`split(char::is_whitespace)`). */
  function SplitAtWhitespace(s: string): (pieces: seq<string>)
    ensures |pieces| > 0
    ensures forall i :: 0 <= i < |pieces| ==> NoWhitespace(pieces[i])
    decreases |s|
  {
    var n := WordLength(s);
    if n == |s| then [s] else [s[..n]] + SplitAtWhitespace(s[n + 1..])
  }

  /** The non-empty pieces, in order. */
  function NonEmpty(pieces: seq<string>): (r: seq<string>)
    ensures forall i :: 0 <= i < |r| ==> r[i] != []
    decreases |pieces|
  {
    if pieces == [] then []
    else if pieces[0] == [] then NonEmpty(pieces[1..])
    else [pieces[0]] + NonEmpty(pieces[1..])
  }

  /** `split_whitespace` is `split(char::is_whitespace)` with the empty
      pieces dropped. */
  lemma {:induction false} WordsAreNonEmptyPieces(s: string)
    ensures Words(s) == NonEmpty(SplitAtWhitespace(s))
    decreases |s|
  {
    var n := WordLength(s);
    var pieces := SplitAtWhitespace(s);
    if s == [] {
      assert pieces == [[]];
      assert NonEmpty(pieces) == NonEmpty(pieces[1..]);
    } else if IsWhitespace(s[0]) {
      assert s[..0] == [];
      assert pieces == [[]] + SplitAtWhitespace(s[1..]);
      assert pieces[1..] == SplitAtWhitespace(s[1..]);
      WordsAreNonEmptyPieces(s[1..]);
    } else if n == |s| {
      assert s[..n] == s;
      assert s[n..] == [];
      assert pieces == [s];
      assert NonEmpty(pieces) == [s] + NonEmpty(pieces[1..]);
    } else {
      var rest := SplitAtWhitespace(s[n + 1..]);
      assert pieces == [s[..n]] + rest && pieces[1..] == rest;
      assert s[..n] != [] by { assert s[..n][0] == s[0]; }
      assert s[n..][1..] == s[n + 1..];
      assert Words(s[n..]) == Words(s[n + 1..]);
      WordsAreNonEmptyPieces(s[n + 1..]);
    }
  }

  /** The position of the first `c` in `s`, or `|s|` when there is none. */
  function IndexOf(s: string, c: char): (i: nat)
    ensures i <= |s|
    ensures i < |s| ==> s[i] == c
    ensures forall j :: 0 <= j < i ==> s[j] != c
  {
    if s == [] || s[0] == c then 0 else 1 + IndexOf(s[1..], c)
  }

  /** The pieces joined back together with `sep` between neighbours. */
  function JoinWith(pieces: seq<string>, sep: char): string
    requires |pieces| > 0
    decreases |pieces|
  {
    if |pieces| == 1 then pieces[0] else pieces[0] + [sep] + JoinWith(pieces[1..], sep)
  }

  /** The pieces of `s` between occurrences of `sep`: joining them with `sep`
      gives `s` back, so every occurrence of `sep` separates two pieces. */
  function SplitOn(s: string, sep: char): (pieces: seq<string>)
    ensures |pieces| > 0
    ensures forall i :: 0 <= i < |pieces| ==> sep !in pieces[i]
    ensures JoinWith(pieces, sep) == s
    decreases |s|
  {
    var i := IndexOf(s, sep);
    if i == |s| then [s]
    else
      var rest := SplitOn(s[i + 1..], sep);
      var pieces := [s[..i]] + rest;
      assert pieces[1..] == rest;
      assert s == s[..i] + [sep] + s[i + 1..];
      pieces
  }

  /** The query of a URL: what follows its first `?`, up to the fragment;
      empty when the URL has no query. */
  function QueryOf(url: string): string {
    var q := IndexOf(url, '?');
    var h := IndexOf(url, '#');
    if q < h then url[q + 1..h] else ""
  }

  /** One `name=value` piece, split at its first `=` and decoded; a piece
      without `=` has the empty value. */
  function ParsePair(codec: UrlCodec, piece: string): (string, string) {
    var e := IndexOf(piece, '=');
    if e == |piece| then (codec.decode(piece), codec.decode(""))
    else (codec.decode(piece[..e]), codec.decode(piece[e + 1..]))
  }

  /** The pairs of the `&`-separated pieces, skipping empty pieces. */
  function PairsOf(codec: UrlCodec, pieces: seq<string>): seq<(string, string)>
    decreases |pieces|
  {
    if pieces == [] then []
    else if pieces[0] == "" then PairsOf(codec, pieces[1..])
    else [ParsePair(codec, pieces[0])] + PairsOf(codec, pieces[1..])
  }

  /** `url.query_pairs()`. */
  function QueryPairs(codec: UrlCodec, url: string): seq<(string, string)> {
    PairsOf(codec, SplitOn(QueryOf(url), '&'))
  }

  /** `query_pairs().find(|(k, _)| k == key)`: the value of the first pair
      named `key`. */
  function FindPair(pairs: seq<(string, string)>, key: string): (r: Option<string>)
    ensures r.None? <==> forall i :: 0 <= i < |pairs| ==> pairs[i].0 != key
    ensures r.Some? ==> exists i :: 0 <= i < |pairs| && pairs[i] == (key, r.value)
                                    && forall j :: 0 <= j < i ==> pairs[j].0 != key
    decreases |pairs|
  {
    if pairs == [] then None
    else if pairs[0].0 == key then Some(pairs[0].1)
    else
      var r := FindPair(pairs[1..], key);
      if r.Some? then FirstPairInTail(pairs, key, r.value); r else r
  }

  lemma FirstPairInTail(pairs: seq<(string, string)>, key: string, v: string)
    requires pairs != [] && pairs[0].0 != key
    requires exists i :: 0 <= i < |pairs[1..]| && pairs[1..][i] == (key, v)
                         && forall j :: 0 <= j < i ==> pairs[1..][j].0 != key
    ensures exists i :: 0 <= i < |pairs| && pairs[i] == (key, v)
                        && forall j :: 0 <= j < i ==> pairs[j].0 != key
  {
    var i :| 0 <= i < |pairs[1..]| && pairs[1..][i] == (key, v)
             && forall j :: 0 <= j < i ==> pairs[1..][j].0 != key;
    assert pairs[i + 1] == (key, v);
    assert forall j :: 0 <= j < i + 1 ==> pairs[j].0 != key by {
      forall j | 0 <= j < i + 1 ensures pairs[j].0 != key {
        if j > 0 { assert pairs[j] == pairs[1..][j - 1]; }
      }
    }
  }

  const LocalOrigin: string := "http://localhost"

  /** The values read from the browser's redirect. */
  datatype CallbackParams = CallbackParams(code: string, state: string)

  /** The `code` and `state` of the request line's target (its second
      whitespace-separated word) taken relative to `http://localhost`; every
      `Err` here is an `unwrap` on `None` or `Err` in the source. */
  function ParseCallback(codec: UrlCodec, requestLine: Option<string>): (r: Result<CallbackParams, string>)
    ensures r.Ok? <==>
              && requestLine.Some?
              && |Words(requestLine.value)| >= 2
              && codec.parses(LocalOrigin + Words(requestLine.value)[1])
              && var pairs := QueryPairs(codec, LocalOrigin + Words(requestLine.value)[1]);
                 FindPair(pairs, "code").Some? && FindPair(pairs, "state").Some?
    ensures r.Ok? ==>
              && requestLine.Some?
              && |Words(requestLine.value)| >= 2
              && codec.parses(LocalOrigin + Words(requestLine.value)[1])
              && var pairs := QueryPairs(codec, LocalOrigin + Words(requestLine.value)[1]);
                 FindPair(pairs, "code") == Some(r.value.code) && FindPair(pairs, "state") == Some(r.value.state)
  {
    match requestLine
    case None => Err("the request line could not be read")
    case Some(line) =>
      var words := Words(line);
      if |words| < 2 then Err("the request line has no target")
      else
        var url := LocalOrigin + words[1];
        if !codec.parses(url) then Err("the redirect target is not a URL")
        else
          var pairs := QueryPairs(codec, url);
          match FindPair(pairs, "code")
          case None => Err("the redirect has no code")
          case Some(code) =>
            match FindPair(pairs, "state")
            case None => Err("the redirect has no state")
            case Some(state) => Ok(CallbackParams(code, state))
  }

  lemma {:induction false} WordLengthOfWord(w: string, rest: string)
    requires NoWhitespace(w)
    requires rest == [] || IsWhitespace(rest[0])
    ensures WordLength(w + rest) == |w|
    decreases |w|
  {
    if w == [] {
      assert w + rest == rest;
    } else {
      assert (w + rest)[1..] == w[1..] + rest;
      WordLengthOfWord(w[1..], rest);
    }
  }

  lemma WordsOfWord(w: string, rest: string)
    requires w != [] && NoWhitespace(w)
    requires rest == [] || IsWhitespace(rest[0])
    ensures Words(w + rest) == [w] + Words(rest)
  {
    WordLengthOfWord(w, rest);
    assert (w + rest)[..|w|] == w;
    assert (w + rest)[|w|..] == rest;
  }

  lemma WordsAfterSpace(rest: string)
    ensures Words(" " + rest) == Words(rest)
  {
    assert (" " + rest)[1..] == rest;
  }

  /** In `<m> <target><tail>`, with `tail` empty or starting with whitespace,
      the second word is the target. */
  lemma SecondWord(m: string, target: string, tail: string)
    requires m != [] && NoWhitespace(m) && target != [] && NoWhitespace(target)
    requires tail == [] || IsWhitespace(tail[0])
    ensures var ws := Words(m + (" " + (target + tail)));
            |ws| >= 2 && ws[0] == m && ws[1] == target
  {
    var rest := target + tail;
    WordsOfWord(target, tail);
    WordsAfterSpace(rest);
    var spaced := " " + rest;
    assert IsWhitespace(spaced[0]);
    WordsOfWord(m, spaced);
    var ws := Words(m + spaced);
    assert ws == [m] + ([target] + Words(tail));
    assert ws[0] == m && ws[1] == target;
  }

  /** The target of an HTTP request line `GET <target> HTTP/1.1` is its second word. */
  lemma RequestLineTarget(target: string)
    requires target != [] && NoWhitespace(target)
    ensures var ws := Words("GET " + target + " HTTP/1.1\r\n");
            |ws| >= 2 && ws[1] == target
  {
    var m, tail := "GET", " HTTP/1.1\r\n";
    assert NoWhitespace(m);
    assert IsWhitespace(tail[0]);
    SecondWord(m, target, tail);
    assert m + (" " + (target + tail)) == "GET " + target + " HTTP/1.1\r\n";
  }

  lemma QueryOfTarget(query: string)
    requires '#' !in query
    ensures QueryOf(LocalOrigin + ("/?" + query)) == query
  {
    var url := LocalOrigin + ("/?" + query);
    var q := |LocalOrigin| + 1;
    assert url[q] == '?';
    assert forall j :: 0 <= j < q ==> url[j] != '?';
    assert IndexOf(url, '?') == q;
    assert forall j :: 0 <= j < |url| ==> url[j] != '#';
    assert IndexOf(url, '#') == |url|;
    assert url[q + 1..] == query;
  }

  /** A first piece without `&` is split off on its own. */
  lemma SplitOnHead(a: string, rest: string)
    requires '&' !in a
    ensures SplitOn(a + "&" + rest, '&') == [a] + SplitOn(rest, '&')
  {
    var s := a + "&" + rest;
    assert s[|a|] == '&';
    assert forall j :: 0 <= j < |a| ==> s[j] == a[j];
    assert IndexOf(s, '&') == |a|;
    assert s[..|a|] == a;
    assert s[|a| + 1..] == rest;
  }

  lemma SplitOnTwo(a: string, b: string)
    requires '&' !in a && '&' !in b
    ensures SplitOn(a + "&" + b, '&') == [a, b]
  {
    SplitOnHead(a, b);
    assert IndexOf(b, '&') == |b|;
  }

  lemma ParseNamed(codec: UrlCodec, name: string, value: string)
    requires '=' !in name
    ensures ParsePair(codec, name + "=" + value) == (codec.decode(name), codec.decode(value))
  {
    var s := name + "=" + value;
    assert s[|name|] == '=';
    assert forall j :: 0 <= j < |name| ==> s[j] == name[j];
    assert IndexOf(s, '=') == |name|;
    assert s[..|name|] == name;
    assert s[|name| + 1..] == value;
  }

  lemma NoWhitespaceJoin(a: string, b: string)
    requires NoWhitespace(a) && NoWhitespace(b)
    ensures NoWhitespace(a + b)
  {
    forall i | 0 <= i < |a + b| ensures !IsWhitespace((a + b)[i]) {
      if i >= |a| { assert (a + b)[i] == b[i - |a|]; }
    }
  }

  /** The query of the redirect a provider sends back with code `c` and state `s`. */
  function RedirectQuery(c: string, s: string): string {
    "code=" + c + "&" + ("state=" + s)
  }

  /** The request target of that redirect. */
  function RedirectTarget(c: string, s: string): string {
    "/?" + RedirectQuery(c, s)
  }

  /** The request line of that redirect. */
  function RedirectLine(c: string, s: string): string {
    "GET " + RedirectTarget(c, s) + " HTTP/1.1\r\n"
  }

  /** The request line of that redirect has the redirect target as its second word. */
  lemma RedirectLineTarget(c: string, s: string)
    requires NoWhitespace(c) && NoWhitespace(s)
    ensures var ws := Words(RedirectLine(c, s));
            |ws| >= 2 && ws[1] == RedirectTarget(c, s)
  {
    var codePiece, statePiece := "code=" + c, "state=" + s;
    assert NoWhitespace("code=") && NoWhitespace("&") && NoWhitespace("state=") && NoWhitespace("/?");
    NoWhitespaceJoin("code=", c);
    NoWhitespaceJoin(codePiece, "&");
    NoWhitespaceJoin("state=", s);
    NoWhitespaceJoin(codePiece + "&", statePiece);
    NoWhitespaceJoin("/?", RedirectQuery(c, s));
    RequestLineTarget(RedirectTarget(c, s));
  }

  lemma PairsOfTwo(codec: UrlCodec, a: string, b: string)
    requires a != "" && b != ""
    ensures PairsOf(codec, [a, b]) == [ParsePair(codec, a), ParsePair(codec, b)]
  {
    assert [a, b][1..] == [b];
    assert [b][1..] == [];
    assert PairsOf(codec, [b]) == [ParsePair(codec, b)] + PairsOf(codec, []);
    assert PairsOf(codec, [a, b]) == [ParsePair(codec, a)] + PairsOf(codec, [b]);
  }

  lemma NamedPiece(codec: UrlCodec, name: string, value: string)
    requires name == "code" || name == "state" || name == "scope"
    requires codec.decode(name) == name
    ensures ParsePair(codec, name + "=" + value) == (name, codec.decode(value))
  {
    assert '=' !in name;
    ParseNamed(codec, name, value);
  }

  /** The query of that redirect splits into the named code and state pairs. */
  lemma RedirectPairs(codec: UrlCodec, c: string, s: string)
    requires '&' !in c && '&' !in s && '#' !in c && '#' !in s && '=' !in c
    requires codec.decode("code") == "code" && codec.decode("state") == "state"
    ensures QueryPairs(codec, LocalOrigin + RedirectTarget(c, s))
            == [("code", codec.decode(c)), ("state", codec.decode(s))]
  {
    var codePiece, statePiece := "code" + "=" + c, "state" + "=" + s;
    assert codePiece == "code=" + c && statePiece == "state=" + s;
    var query := RedirectQuery(c, s);
    QueryOfTarget(query);
    SplitOnTwo(codePiece, statePiece);
    NamedPiece(codec, "code", c);
    NamedPiece(codec, "state", s);
    PairsOfTwo(codec, codePiece, statePiece);
  }

  /** The redirect a provider sends, `GET /?code=C&state=S HTTP/1.1`, is
      read back as the decoded `C` and `S`. */
  lemma ParseProviderRedirect(codec: UrlCodec, c: string, s: string)
    requires c != [] && s != []
    requires NoWhitespace(c) && NoWhitespace(s)
    requires '&' !in c && '&' !in s && '#' !in c && '#' !in s && '=' !in c
    requires codec.decode("code") == "code" && codec.decode("state") == "state"
    requires codec.parses(LocalOrigin + RedirectTarget(c, s))
    ensures ParseCallback(codec, Some(RedirectLine(c, s))) == Ok(CallbackParams(codec.decode(c), codec.decode(s)))
  {
    RedirectLineTarget(c, s);
    RedirectPairs(codec, c, s);
    var pairs := QueryPairs(codec, LocalOrigin + RedirectTarget(c, s));
    assert FindPair(pairs, "code") == Some(codec.decode(c));
    assert pairs[1..] == [("state", codec.decode(s))];
    assert FindPair(pairs, "state") == Some(codec.decode(s));
  }

  /** The query of Google's redirect, which puts `state` first and adds the
      granted `scope`. */
  function GoogleQuery(s: string, c: string, sc: string): string {
    "state=" + s + "&" + ("code=" + c) + "&" + ("scope=" + sc)
  }

  function GoogleTarget(s: string, c: string, sc: string): string {
    "/?" + GoogleQuery(s, c, sc)
  }

  function GoogleLine(s: string, c: string, sc: string): string {
    "GET " + GoogleTarget(s, c, sc) + " HTTP/1.1\r\n"
  }

  lemma SplitOnThree(a: string, b: string, c: string)
    requires '&' !in a && '&' !in b && '&' !in c
    ensures SplitOn(a + "&" + b + "&" + c, '&') == [a, b, c]
  {
    var rest := b + "&" + c;
    SplitOnHead(a, rest);
    SplitOnTwo(b, c);
    AppendTwice(a + "&", b, "&");
    AppendTwice(a + "&", b + "&", c);
  }

  lemma PairsOfThree(codec: UrlCodec, a: string, b: string, c: string)
    requires a != "" && b != "" && c != ""
    ensures PairsOf(codec, [a, b, c]) == [ParsePair(codec, a), ParsePair(codec, b), ParsePair(codec, c)]
  {
    assert [a, b, c][1..] == [b, c];
    PairsOfTwo(codec, b, c);
  }

  /** The request line of Google's redirect has its target as second word. */
  lemma GoogleLineTarget(s: string, c: string, sc: string)
    requires NoWhitespace(s) && NoWhitespace(c) && NoWhitespace(sc)
    ensures var ws := Words(GoogleLine(s, c, sc));
            |ws| >= 2 && ws[1] == GoogleTarget(s, c, sc)
  {
    var sp, cp, scp := "state=" + s, "code=" + c, "scope=" + sc;
    assert NoWhitespace("state=") && NoWhitespace("code=") && NoWhitespace("scope=")
           && NoWhitespace("&") && NoWhitespace("/?");
    NoWhitespaceJoin("state=", s);
    NoWhitespaceJoin("code=", c);
    NoWhitespaceJoin("scope=", sc);
    NoWhitespaceJoin(sp, "&");
    NoWhitespaceJoin(sp + "&", cp);
    NoWhitespaceJoin(sp + "&" + cp, "&");
    NoWhitespaceJoin(sp + "&" + cp + "&", scp);
    NoWhitespaceJoin("/?", GoogleQuery(s, c, sc));
    RequestLineTarget(GoogleTarget(s, c, sc));
  }

  /** The query of Google's redirect splits into its three named pairs. */
  lemma GooglePairs(codec: UrlCodec, s: string, c: string, sc: string)
    requires '&' !in s && '&' !in c && '&' !in sc && '#' !in s && '#' !in c && '#' !in sc
    requires codec.decode("state") == "state" && codec.decode("code") == "code" && codec.decode("scope") == "scope"
    ensures QueryPairs(codec, LocalOrigin + GoogleTarget(s, c, sc))
            == [("state", codec.decode(s)), ("code", codec.decode(c)), ("scope", codec.decode(sc))]
  {
    var sp, cp, scp := "state" + "=" + s, "code" + "=" + c, "scope" + "=" + sc;
    assert sp == "state=" + s && cp == "code=" + c && scp == "scope=" + sc;
    var query := GoogleQuery(s, c, sc);
    assert query == sp + "&" + cp + "&" + scp;
    GoogleQueryOf(s, c, sc);
    NoAmpersandInPieces(s, c, sc);
    SplitOnThree(sp, cp, scp);
    PairsOfThree(codec, sp, cp, scp);
    NamedPiece(codec, "state", s);
    NamedPiece(codec, "code", c);
    NamedPiece(codec, "scope", sc);
  }

  lemma NoAmpersandInPieces(s: string, c: string, sc: string)
    requires '&' !in s && '&' !in c && '&' !in sc
    ensures '&' !in "state=" + s && '&' !in "code=" + c && '&' !in "scope=" + sc
  {
  }

  lemma GoogleQueryOf(s: string, c: string, sc: string)
    requires '#' !in s && '#' !in c && '#' !in sc
    ensures QueryOf(LocalOrigin + GoogleTarget(s, c, sc)) == GoogleQuery(s, c, sc)
  {
    var query := GoogleQuery(s, c, sc);
    assert '#' !in query by {
      forall k | 0 <= k < |query| ensures query[k] != '#' {
        if k < 6 + |s| {
          assert query[k] == ("state=" + s)[k];
        } else if k < 6 + |s| + 6 + |c| {
          assert query[k] == ("&code=" + c)[k - (6 + |s|)];
        } else {
          assert query[k] == ("&scope=" + sc)[k - (6 + |s| + 6 + |c|)];
        }
      }
    }
    QueryOfTarget(query);
  }

  /** Google's redirect `GET /?state=S&code=C&scope=SC HTTP/1.1` is read
      back as the decoded `C` and `S`: the pairs are found by name, whatever
      their order, and the extra `scope` pair is ignored. */
  lemma ParseGoogleRedirect(codec: UrlCodec, s: string, c: string, sc: string)
    requires NoWhitespace(s) && NoWhitespace(c) && NoWhitespace(sc)
    requires '&' !in s && '&' !in c && '&' !in sc && '#' !in s && '#' !in c && '#' !in sc
    requires codec.decode("state") == "state" && codec.decode("code") == "code" && codec.decode("scope") == "scope"
    requires codec.parses(LocalOrigin + GoogleTarget(s, c, sc))
    ensures ParseCallback(codec, Some(GoogleLine(s, c, sc))) == Ok(CallbackParams(codec.decode(c), codec.decode(s)))
  {
    GoogleLineTarget(s, c, sc);
    GooglePairs(codec, s, c, sc);
    var pairs := QueryPairs(codec, LocalOrigin + GoogleTarget(s, c, sc));
    assert FindPair(pairs, "state") == Some(codec.decode(s));
    assert pairs[1..] == [("code", codec.decode(c)), ("scope", codec.decode(sc))];
    assert FindPair(pairs, "code") == Some(codec.decode(c));
  }

  const ReplyBody: string := "Go back to your terminal :)"

  /** The decimal digits of `n`. */
  function Decimal(n: nat): string
    decreases n
  {
    var digit := [('0' as int + n % 10) as char];
    if n < 10 then digit else Decimal(n / 10) + digit
  }

  /** The response written to the browser: status 200 with the body's length
      as `content-length`. */
  const Reply: string := "HTTP/1.1 200 OK\r\ncontent-length: " + Decimal(|ReplyBody|) + "\r\n\r\n" + ReplyBody

  /** A proof step for `ReplyIsFixed`, with no counterpart in the program. */
  lemma DecimalOfBodyLength()
    ensures |ReplyBody| == 27 && Decimal(|ReplyBody|) == "27"
  {
    assert |ReplyBody| == 27;
    assert ('0' as int + 2) as char == '2' && ('0' as int + 7) as char == '7';
    assert Decimal(2) == "2";
    assert Decimal(27) == Decimal(2) + "7";
  }

  lemma ReplyIsFixed()
    ensures |ReplyBody| == 27
    ensures Reply == "HTTP/1.1 200 OK\r\ncontent-length: 27\r\n\r\n" + ReplyBody
  {
    DecimalOfBodyLength();
    var status := "HTTP/1.1 200 OK\r\ncontent-length: ";
    assert status + "27" == "HTTP/1.1 200 OK\r\ncontent-length: 27";
    assert status + "27" + "\r\n\r\n" == "HTTP/1.1 200 OK\r\ncontent-length: 27\r\n\r\n";
  }

  /** One item of `listener.incoming()`: a failed accept, or a connection with
      its first line (None when `read_line` fails) and whether writing the
      reply to it succeeds. */
  datatype Incoming = AcceptFailed | Accepted(requestLine: Option<string>, writeOk: bool)

  /** The first successfully accepted connection. */
  function FirstAccepted(incoming: seq<Incoming>): (r: Option<nat>)
    ensures r.None? <==> forall i :: 0 <= i < |incoming| ==> incoming[i].AcceptFailed?
    ensures r.Some? ==> r.value < |incoming| && incoming[r.value].Accepted?
                        && forall j :: 0 <= j < r.value ==> incoming[j].AcceptFailed?
    decreases |incoming|
  {
    if incoming == [] then None
    else if incoming[0].Accepted? then Some(0)
    else
      var r := FirstAccepted(incoming[1..]);
      if r.Some? then Some(r.value + 1) else None
  }

  /** The `TcpListener` bound to 127.0.0.1:8080, with the replies written. */
  class Listener {
    const bindOk: bool
    const incoming: seq<Incoming>
    var replies: seq<(nat, string)>

    constructor (bindOk: bool, incoming: seq<Incoming>)
      ensures this.bindOk == bindOk && this.incoming == incoming && replies == []
    {
      this.bindOk := bindOk;
      this.incoming := incoming;
      replies := [];
    }

    /** `stream.write_all` on connection `i`. */
    method Send(i: nat, text: string) returns (ok: bool)
      requires i < |incoming| && incoming[i].Accepted?
      modifies this
      ensures ok == incoming[i].writeOk
      ensures replies == old(replies) + [(i, text)]
    {
      replies := replies + [(i, text)];
      ok := incoming[i].writeOk;
    }
  }
}

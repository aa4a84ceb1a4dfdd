/**
 Query strings: a printer, `append_query`, and the form decoder of a server that must invert it.
 Everything is bytes; text is UTF-8 before it is quoted and after it is unquoted.
 */
module QueryString {
  import opened Octets
  import opened Options

  type Pair = (Bytes, Bytes)

  const SPACE: Byte := 32
  const HASH: Byte := 35
  const PERCENT: Byte := 37
  const AMPERSAND: Byte := 38
  const PLUS: Byte := 43
  const EQUALS: Byte := 61
  const QUESTION: Byte := 63

  // ---- quoting ----

  /** Letters, digits and `_.-~` stand for themselves. */
  predicate Unreserved(b: Byte) {
    48 <= b <= 57 || 65 <= b <= 90 || 97 <= b <= 122 || b == 95 || b == 46 || b == 45 || b == 126
  }

  function HexDigit(n: int): Byte
    requires 0 <= n < 16
  {
    if n < 10 then 48 + n else 55 + n
  }

  function Quote(b: Byte): Bytes {
    if Unreserved(b) then [b]
    else if b == SPACE then [PLUS]
    else [PERCENT, HexDigit(b / 16), HexDigit(b % 16)]
  }

  predicate IsUpperHex(b: Byte) {
    '0' as int <= b <= '9' as int || 'A' as int <= b <= 'F' as int
  }

  /** Letters, digits and `_.-~` as they are, a space as `+`, and any other byte as `%` and its two digits. */
  lemma QuotedAs(b: Byte)
    ensures Quote(b) == [b] <==>
      || 'a' as int <= b <= 'z' as int || 'A' as int <= b <= 'Z' as int || '0' as int <= b <= '9' as int
      || b == '_' as int || b == '.' as int || b == '-' as int || b == '~' as int
    ensures Quote(b) == ['+' as int] <==> b == ' ' as int
    ensures |Quote(b)| == 1
      || (|Quote(b)| == 3 && Quote(b)[0] == '%' as int && IsUpperHex(Quote(b)[1]) && IsUpperHex(Quote(b)[2]))
  {
  }

  function QuotePlus(s: Bytes): Bytes {
    if s == [] then [] else Quote(s[0]) + QuotePlus(s[1..])
  }

  function HexValue(b: Byte): Option<int> {
    if 48 <= b <= 57 then Some(b - 48)
    else if 65 <= b <= 70 then Some(b - 55)
    else if 97 <= b <= 102 then Some(b - 87)
    else None
  }

  /** A `%` that two hexadecimal digits do not follow stands for itself. */
  function UnquotePlus(s: Bytes): Bytes {
    if s == [] then []
    else if s[0] == PLUS then [SPACE] + UnquotePlus(s[1..])
    else if s[0] == PERCENT && |s| >= 3 && HexValue(s[1]).Some? && HexValue(s[2]).Some? then
      assert 0 <= HexValue(s[1]).value < 16 && 0 <= HexValue(s[2]).value < 16;
      [HexValue(s[1]).value * 16 + HexValue(s[2]).value] + UnquotePlus(s[3..])
    else [s[0]] + UnquotePlus(s[1..])
  }

  lemma UnquoteOne(b: Byte, rest: Bytes)
    ensures UnquotePlus(Quote(b) + rest) == [b] + UnquotePlus(rest)
  {
  }

  lemma {:induction false} UnquoteQuote(s: Bytes)
    ensures UnquotePlus(QuotePlus(s)) == s
  {
    if s != [] {
      UnquoteOne(s[0], QuotePlus(s[1..]));
      UnquoteQuote(s[1..]);
    }
  }

  predicate Plain(s: Bytes) {
    forall i | 0 <= i < |s| :: s[i] != AMPERSAND && s[i] != EQUALS && s[i] != HASH && s[i] != QUESTION
  }

  lemma {:induction false} QuotedIsPlain(s: Bytes)
    ensures Plain(QuotePlus(s))
  {
    if s != [] {
      QuotedIsPlain(s[1..]);
      assert Plain(Quote(s[0]));
    }
  }

  // ---- finding a delimiter ----

  function Find(s: Bytes, c: Byte): (i: nat)
    ensures i <= |s| && (i < |s| ==> s[i] == c)
    ensures forall j | 0 <= j < i :: s[j] != c
  {
    if s == [] || s[0] == c then 0 else 1 + Find(s[1..], c)
  }

  lemma FindIs(s: Bytes, c: Byte, i: nat)
    requires i <= |s| && (i < |s| ==> s[i] == c) && forall j | 0 <= j < i :: s[j] != c
    ensures Find(s, c) == i
  {
  }

  // ---- form decoding ----

  function SplitPair(segment: Bytes): Pair {
    var i := Find(segment, EQUALS);
    (UnquotePlus(segment[..i]), if i < |segment| then UnquotePlus(segment[i + 1..]) else [])
  }

  function Segment(segment: Bytes): seq<Pair> {
    if segment == [] then [] else [SplitPair(segment)]
  }

  /** The pairs between the `&`s; empty segments are nothing, a missing `=` is an empty value. */
  function FormDecode(query: Bytes): seq<Pair>
    decreases |query|
  {
    var i := Find(query, AMPERSAND);
    if i == |query| then Segment(query) else Segment(query[..i]) + FormDecode(query[i + 1..])
  }

  lemma CutInside(a: Bytes, c: Byte, b: Bytes, i: nat)
    requires i < |a|
    ensures (a + [c] + b)[..i] == a[..i] && (a + [c] + b)[i + 1..] == a[i + 1..] + [c] + b
  {
  }

  lemma {:induction false} DecodeSplits(a: Bytes, b: Bytes)
    ensures FormDecode(a + [AMPERSAND] + b) == FormDecode(a) + FormDecode(b)
    decreases |a|
  {
    var s := a + [AMPERSAND] + b;
    var i := Find(a, AMPERSAND);
    FindIs(s, AMPERSAND, i);
    if i == |a| {
      assert s[..i] == a && s[i + 1..] == b;
    } else {
      CutInside(a, AMPERSAND, b, i);
      DecodeSplits(a[i + 1..], b);
    }
  }

  // ---- printing ----

  function EncodePair(p: Pair): Bytes {
    QuotePlus(p.0) + [EQUALS] + QuotePlus(p.1)
  }

  function UrlEncode(pairs: seq<Pair>): Bytes {
    if pairs == [] then []
    else if |pairs| == 1 then EncodePair(pairs[0])
    else EncodePair(pairs[0]) + [AMPERSAND] + UrlEncode(pairs[1..])
  }

  lemma PairRoundTrip(p: Pair)
    ensures FormDecode(EncodePair(p)) == [p]
  {
    var s := EncodePair(p);
    QuotedIsPlain(p.0);
    QuotedIsPlain(p.1);
    FindIs(s, AMPERSAND, |s|);
    FindIs(s, EQUALS, |QuotePlus(p.0)|);
    assert s[..|QuotePlus(p.0)|] == QuotePlus(p.0) && s[|QuotePlus(p.0)| + 1..] == QuotePlus(p.1);
    UnquoteQuote(p.0);
    UnquoteQuote(p.1);
  }

  lemma {:induction false} EncodeRoundTrip(pairs: seq<Pair>)
    ensures FormDecode(UrlEncode(pairs)) == pairs
  {
    if |pairs| == 1 {
      PairRoundTrip(pairs[0]);
    } else if |pairs| > 1 {
      DecodeSplits(EncodePair(pairs[0]), UrlEncode(pairs[1..]));
      PairRoundTrip(pairs[0]);
      EncodeRoundTrip(pairs[1..]);
    }
  }

  lemma {:induction false} EncodedHasNo(pairs: seq<Pair>, c: Byte)
    requires c == HASH || c == QUESTION
    ensures c !in UrlEncode(pairs)
  {
    if pairs != [] {
      QuotedIsPlain(pairs[0].0);
      QuotedIsPlain(pairs[0].1);
      EncodedHasNo(pairs[1..], c);
    }
  }

  type Params = seq<(Bytes, Option<Bytes>)>

  function Maybe(name: Bytes, value: Option<Bytes>): seq<Pair> {
    if value.Some? then [(name, value.value)] else []
  }

  function NonNone(params: Params): seq<Pair> {
    if params == [] then [] else Maybe(params[0].0, params[0].1) + NonNone(params[1..])
  }

  lemma {:induction false} NonNonePairs(params: Params)
    requires forall i | 0 <= i < |params| :: params[i].1.Some?
    ensures |NonNone(params)| == |params|
    ensures forall i | 0 <= i < |params| :: NonNone(params)[i] == (params[i].0, params[i].1.value)
  {
    if params != [] {
      NonNonePairs(params[1..]);
    }
  }

  lemma NonNoneCons(name: Bytes, value: Option<Bytes>, rest: Params)
    ensures NonNone([(name, value)] + rest) == Maybe(name, value) + NonNone(rest)
  {
    assert ([(name, value)] + rest)[1..] == rest;
  }

  /** What is None is left out and the rest is sent as it is, in the order given. */
  lemma {:induction false} NonNoneSplits(a: Params, b: Params)
    ensures NonNone(a + b) == NonNone(a) + NonNone(b)
  {
    if a == [] {
      assert a + b == b;
    } else {
      var name, value, rest := a[0].0, a[0].1, a[1..];
      assert a == [(name, value)] + rest && a + b == [(name, value)] + (rest + b);
      NonNoneCons(name, value, rest);
      NonNoneCons(name, value, rest + b);
      NonNoneSplits(rest, b);
    }
  }

  lemma NonNoneOne(name: Bytes, value: Option<Bytes>)
    ensures NonNone([(name, value)]) == (match value case Some(v) => [(name, v)] case None => [])
    ensures NonNone([]) == []
  {
  }

  lemma {:induction false} NonNoneHolds(params: Params, p: Pair)
    ensures p in NonNone(params) <==> (p.0, Some(p.1)) in params
  {
    if params != [] {
      NonNoneHolds(params[1..], p);
      assert params == [params[0]] + params[1..];
    }
  }

  function AppendQuery(endpoint: Bytes, params: Params): Bytes {
    var pairs := NonNone(params);
    if pairs == [] then endpoint
    else endpoint + [if QUESTION in endpoint then AMPERSAND else QUESTION] + UrlEncode(pairs)
  }

  // ---- the round trip ----

  /** The query of a URL: after the first `?`, before any fragment. */
  function QueryOf(url: Bytes): Bytes {
    var whole := url[..Find(url, HASH)];
    var i := Find(whole, QUESTION);
    if i < |whole| then whole[i + 1..] else []
  }

  lemma QueryOfJoined(endpoint: Bytes, encoded: Bytes)
    requires HASH !in endpoint && HASH !in encoded && QUESTION !in encoded
    ensures
      var url := endpoint + [if QUESTION in endpoint then AMPERSAND else QUESTION] + encoded;
      QueryOf(url) == if QUESTION in endpoint then QueryOf(endpoint) + [AMPERSAND] + encoded else encoded
  {
    var url := endpoint + [if QUESTION in endpoint then AMPERSAND else QUESTION] + encoded;
    FindIs(url, HASH, |url|);
    FindIs(endpoint, HASH, |endpoint|);
    var i := Find(endpoint, QUESTION);
    FindIs(url, QUESTION, i);
    assert url[..|url|] == url && endpoint[..|endpoint|] == endpoint;
    if i < |endpoint| {
      assert endpoint[i] == QUESTION;
      assert url[i + 1..] == endpoint[i + 1..] + [AMPERSAND] + encoded;
    } else {
      assert QUESTION !in endpoint;
      assert url[i + 1..] == encoded;
    }
  }

  lemma FragmentSwallows(endpoint: Bytes, more: Bytes)
    requires HASH in endpoint
    ensures QueryOf(endpoint + more) == QueryOf(endpoint)
  {
    var h := Find(endpoint, HASH);
    FindIs(endpoint + more, HASH, h);
    assert (endpoint + more)[..h] == endpoint[..h];
  }

  /**
   Whatever query the endpoint already has, even an empty or malformed one, a server that decodes the
   URL reads the endpoint's own pairs and then exactly the parameters that are not None, in order.
   It does so if and only if the endpoint has no fragment for them to disappear into.
   */
  lemma QueryRoundTrip(endpoint: Bytes, params: Params)
    ensures FormDecode(QueryOf(AppendQuery(endpoint, params))) == FormDecode(QueryOf(endpoint)) + NonNone(params)
       <==> HASH !in endpoint || NonNone(params) == []
    ensures endpoint <= AppendQuery(endpoint, params)
  {
    var pairs := NonNone(params);
    var encoded := UrlEncode(pairs);
    if pairs == [] {
    } else if HASH in endpoint {
      FragmentSwallows(endpoint, [if QUESTION in endpoint then AMPERSAND else QUESTION] + encoded);
      assert endpoint + [if QUESTION in endpoint then AMPERSAND else QUESTION] + encoded
          == endpoint + ([if QUESTION in endpoint then AMPERSAND else QUESTION] + encoded);
    } else {
      EncodedHasNo(pairs, HASH);
      EncodedHasNo(pairs, QUESTION);
      QueryOfJoined(endpoint, encoded);
      EncodeRoundTrip(pairs);
      if QUESTION in endpoint {
        DecodeSplits(QueryOf(endpoint), encoded);
      } else {
        assert endpoint[..Find(endpoint, HASH)] == endpoint;
      }
    }
  }

  // ---- the authorization URL ----

  /** `dict.update`: a key keeps its place and takes the new value; a new key goes to the end. */
  function Put(params: Params, key: Bytes, value: Option<Bytes>): Params {
    if params == [] then [(key, value)]
    else if params[0].0 == key then [(key, value)] + params[1..]
    else [params[0]] + Put(params[1..], key, value)
  }

  function Updated(params: Params, extra: Params): Params
    decreases |extra|
  {
    if extra == [] then params else Updated(Put(params, extra[0].0, extra[0].1), extra[1..])
  }

  lemma {:induction false} PutKeeps(params: Params, key: Bytes, value: Option<Bytes>, i: nat)
    requires i < |params| && params[i].0 != key
    ensures i < |Put(params, key, value)| && Put(params, key, value)[i] == params[i]
  {
    if params[0].0 != key && i > 0 {
      PutKeeps(params[1..], key, value, i - 1);
    }
  }

  lemma {:induction false} UpdateKeeps(params: Params, extra: Params, i: nat)
    requires i < |params| && forall e | e in extra :: e.0 != params[i].0
    ensures i < |Updated(params, extra)| && Updated(params, extra)[i] == params[i]
    decreases |extra|
  {
    if extra != [] {
      PutKeeps(params, extra[0].0, extra[0].1, i);
      UpdateKeeps(Put(params, extra[0].0, extra[0].1), extra[1..], i);
    }
  }

  lemma {:induction false} NonNoneHas(params: Params, i: nat)
    requires i < |params| && params[i].1.Some?
    ensures (params[i].0, params[i].1.value) in NonNone(params)
  {
    if i > 0 {
      NonNoneHas(params[1..], i - 1);
    }
  }

  function Ascii(s: string): (r: Bytes)
    ensures |r| == |s| && forall i | 0 <= i < |s| :: r[i] == s[i] as int % 256
  {
    seq(|s|, i requires 0 <= i < |s| => s[i] as int % 256)
  }

  datatype Ask = Ask(
    clientId: Bytes,
    redirectUri: Bytes,
    scope: Bytes,
    state: Bytes,
    challenge: Bytes,
    nonce: Option<Bytes>,
    resource: Option<Bytes>,
    prompt: Option<Bytes>,
    loginHint: Option<Bytes>)

  function BaseParams(ask: Ask): Params {
    [ (Ascii("response_type"), Some(Ascii("code"))),
      (Ascii("client_id"), Some(ask.clientId)),
      (Ascii("redirect_uri"), Some(ask.redirectUri)),
      (Ascii("scope"), Some(ask.scope)),
      (Ascii("state"), Some(ask.state)),
      (Ascii("code_challenge"), Some(ask.challenge)),
      (Ascii("code_challenge_method"), Some(Ascii("S256"))),
      (Ascii("nonce"), ask.nonce),
      (Ascii("resource"), ask.resource),
      (Ascii("prompt"), ask.prompt),
      (Ascii("login_hint"), ask.loginHint)]
  }

  function AuthorizationUrl(endpoint: Bytes, ask: Ask, extra: Params): Bytes {
    AppendQuery(endpoint, Updated(BaseParams(ask), extra))
  }

  /** Any of the library's own parameters that `extra` does not name arrives at the issuer as it was given. */
  lemma AuthorizationUrlCarries(endpoint: Bytes, ask: Ask, extra: Params, i: nat)
    requires HASH !in endpoint && i < |BaseParams(ask)|
    requires BaseParams(ask)[i].1.Some? && forall e | e in extra :: e.0 != BaseParams(ask)[i].0
    ensures (BaseParams(ask)[i].0, BaseParams(ask)[i].1.value)
         in FormDecode(QueryOf(AuthorizationUrl(endpoint, ask, extra)))
  {
    var params := Updated(BaseParams(ask), extra);
    UpdateKeeps(BaseParams(ask), extra, i);
    NonNoneHas(params, i);
    QueryRoundTrip(endpoint, params);
  }

  /** What an issuer is asked, each value under its own name. */
  function Said(ask: Ask): seq<Pair> {
    [(Ascii("response_type"), Ascii("code")), (Ascii("client_id"), ask.clientId),
     (Ascii("redirect_uri"), ask.redirectUri), (Ascii("scope"), ask.scope), (Ascii("state"), ask.state),
     (Ascii("code_challenge"), ask.challenge), (Ascii("code_challenge_method"), Ascii("S256"))]
    + (Maybe(Ascii("nonce"), ask.nonce) + Maybe(Ascii("resource"), ask.resource)
       + Maybe(Ascii("prompt"), ask.prompt) + Maybe(Ascii("login_hint"), ask.loginHint))
  }

  lemma SaysSeven(ask: Ask)
    ensures NonNone(BaseParams(ask)[..7]) == Said(ask)[..7]
  {
    NonNonePairs(BaseParams(ask)[..7]);
  }

  lemma NonNoneFour(p: Params)
    requires |p| == 4
    ensures NonNone(p) ==
      Maybe(p[0].0, p[0].1) + (Maybe(p[1].0, p[1].1) + (Maybe(p[2].0, p[2].1) + Maybe(p[3].0, p[3].1)))
  {
    assert p == [(p[0].0, p[0].1)] + p[1..] && p[1..] == [(p[1].0, p[1].1)] + p[2..];
    assert p[2..] == [(p[2].0, p[2].1)] + [(p[3].0, p[3].1)];
    NonNoneCons(p[0].0, p[0].1, p[1..]);
    NonNoneCons(p[1].0, p[1].1, p[2..]);
    NonNoneCons(p[2].0, p[2].1, [(p[3].0, p[3].1)]);
    NonNoneOne(p[3].0, p[3].1);
  }

  lemma SaysFour(ask: Ask)
    ensures NonNone(BaseParams(ask)[7..]) == Said(ask)[7..]
  {
    NonNoneFour(BaseParams(ask)[7..]);
    assert Said(ask)[7..] ==
      Maybe(Ascii("nonce"), ask.nonce) + Maybe(Ascii("resource"), ask.resource)
      + Maybe(Ascii("prompt"), ask.prompt) + Maybe(Ascii("login_hint"), ask.loginHint);
  }

  lemma SaysAll(ask: Ask)
    ensures NonNone(BaseParams(ask)) == Said(ask)
  {
    SaysSeven(ask);
    SaysFour(ask);
    NonNoneSplits(BaseParams(ask)[..7], BaseParams(ask)[7..]);
    assert BaseParams(ask) == BaseParams(ask)[..7] + BaseParams(ask)[7..];
    assert Said(ask) == Said(ask)[..7] + Said(ask)[7..];
  }

  /** Without `extra` the issuer reads just that, after whatever the endpoint's own query says. */
  lemma AuthorizationUrlSays(endpoint: Bytes, ask: Ask)
    requires HASH !in endpoint
    ensures FormDecode(QueryOf(AuthorizationUrl(endpoint, ask, []))) == FormDecode(QueryOf(endpoint)) + Said(ask)
  {
    SaysAll(ask);
    QueryRoundTrip(endpoint, BaseParams(ask));
  }

  // ---- `extra` may replace any of them ----

  predicate Distinct(params: Params) {
    forall i, j | 0 <= i < j < |params| :: params[i].0 != params[j].0
  }

  lemma {:induction false} PutSets(params: Params, key: Bytes, value: Option<Bytes>)
    requires Distinct(params)
    ensures
      var after := Put(params, key, value);
      && Distinct(after) && (key, value) in after
      && forall e | e in after && e.0 != key :: e in params
  {
    if params != [] && params[0].0 != key {
      PutSets(params[1..], key, value);
    }
  }

  lemma {:induction false} UpdateSets(params: Params, extra: Params, k: nat)
    requires Distinct(params) && Distinct(extra) && k < |extra|
    ensures extra[k] in Updated(params, extra) && Distinct(Updated(params, extra))
    decreases |extra|
  {
    var put := Put(params, extra[0].0, extra[0].1);
    PutSets(params, extra[0].0, extra[0].1);
    if k > 0 {
      UpdateSets(put, extra[1..], k - 1);
    } else {
      var i :| 0 <= i < |put| && put[i] == extra[0];
      UpdateKeeps(put, extra[1..], i);
      UpdateStaysDistinct(put, extra[1..]);
    }
  }

  lemma {:induction false} UpdateStaysDistinct(params: Params, extra: Params)
    requires Distinct(params)
    ensures Distinct(Updated(params, extra))
    decreases |extra|
  {
    if extra != [] {
      PutSets(params, extra[0].0, extra[0].1);
      UpdateStaysDistinct(Put(params, extra[0].0, extra[0].1), extra[1..]);
    }
  }

  lemma BaseIsDistinct(ask: Ask)
    ensures Distinct(BaseParams(ask))
  {
    var p := BaseParams(ask);
    assert |p[0].0| == 13 && |p[1].0| == 9 && |p[2].0| == 12 && |p[3].0| == |p[4].0| == 5 && |p[5].0| == 14;
    assert |p[6].0| == 21 && |p[7].0| == 5 && |p[8].0| == 8 && |p[9].0| == 6 && |p[10].0| == 10;
    assert p[3].0[1] == 'c' as int && p[4].0[1] == 't' as int && p[7].0[1] == 'o' as int;
  }

  lemma UpdateReplaces(endpoint: Bytes, params: Params, extra: Params, k: nat)
    requires HASH !in endpoint && Distinct(params) && Distinct(extra) && k < |extra|
    ensures
      var own := FormDecode(QueryOf(endpoint));
      var all := FormDecode(QueryOf(AppendQuery(endpoint, Updated(params, extra))));
      && own <= all
      && (extra[k].1.Some? ==> (extra[k].0, extra[k].1.value) in all[|own|..])
      && forall p | p in all[|own|..] && p.0 == extra[k].0 :: extra[k].1 == Some(p.1)
  {
    var updated := Updated(params, extra);
    var own := FormDecode(QueryOf(endpoint));
    UpdateSets(params, extra, k);
    QueryRoundTrip(endpoint, updated);
    assert (own + NonNone(updated))[|own|..] == NonNone(updated);
    if extra[k].1.Some? {
      NonNoneHolds(updated, (extra[k].0, extra[k].1.value));
    }
    forall p | p in NonNone(updated) && p.0 == extra[k].0
      ensures extra[k].1 == Some(p.1)
    {
      NonNoneHolds(updated, p);
    }
  }

  /** A parameter of `extra` is sent with its own value and no other, or not at all if that is None. */
  lemma ExtraReplaces(endpoint: Bytes, ask: Ask, extra: Params, k: nat)
    requires HASH !in endpoint && Distinct(extra) && k < |extra|
    ensures
      var own, all := FormDecode(QueryOf(endpoint)), FormDecode(QueryOf(AuthorizationUrl(endpoint, ask, extra)));
      && own <= all
      && (extra[k].1.Some? ==> (extra[k].0, extra[k].1.value) in all[|own|..])
      && forall p | p in all[|own|..] && p.0 == extra[k].0 :: extra[k].1 == Some(p.1)
  {
    BaseIsDistinct(ask);
    UpdateReplaces(endpoint, BaseParams(ask), extra, k);
  }
}

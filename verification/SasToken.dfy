/**
 The SAS token printer and parser of eventhubauth.c, and the key/value parser of kvp_parser.c.

 STRING_TOKENIZER, Map, URL_Encode, SASToken_Create and strtoull_s are library code that is not part of
 this model. They are given here the behaviour the repository relies on:
 the delimiter argument of the tokenizer is a *set* of characters; leading delimiters are skipped, the
 token stops at the next delimiter, and that delimiter is consumed. Map_Add refuses a key that is present.
 Allocation succeeds.
 */
module SasToken {
  import opened Common

  // ---------------------------------------------------------------- tokenizer

  function SkipDelims(s: string, d: set<char>): (r: string)
    ensures |r| <= |s|
  {
    if s != "" && s[0] in d then SkipDelims(s[1..], d) else s
  }

  function TakeToken(s: string, d: set<char>): string {
    if s == "" || s[0] in d then "" else [s[0]] + TakeToken(s[1..], d)
  }

  function DropToken(s: string, d: set<char>): (r: string)
    ensures |r| <= |s| && (s != "" ==> |r| < |s|)
  {
    if s == "" then "" else if s[0] in d then s[1..] else DropToken(s[1..], d)
  }

  /** All tokens of `s`, in order. */
  function Segments(s: string, d: set<char>): seq<string>
    decreases |s|
  {
    var t := SkipDelims(s, d);
    if t == "" then [] else [TakeToken(t, d)] + Segments(DropToken(t, d), d)
  }

  class StringTokenizer {
    var rest: string

    constructor (input: string)
      ensures rest == input
    {
      rest := input;
    }

    /** STRING_TOKENIZER_get_next_token */
    method GetNextToken(d: set<char>) returns (token: Option<string>)
      modifies this
      ensures var t := SkipDelims(old(rest), d);
        if t == "" then token == None && rest == "" else token == Some(TakeToken(t, d)) && rest == DropToken(t, d)
    {
      rest := SkipDelims(rest, d);
      if rest == "" {
        return None;
      }
      token, rest := Some(TakeToken(rest, d)), DropToken(rest, d);
    }
  }

  /** Tokens are non-empty, free of delimiters, and made of the text's own characters. */
  lemma {:induction false} TokenChars(s: string, d: set<char>)
    ensures forall c :: c in TakeToken(s, d) ==> c in s && c !in d
    ensures forall c :: c in DropToken(s, d) ==> c in s
    ensures s != "" && s[0] !in d ==> TakeToken(s, d) != ""
  {
    if s != "" && s[0] !in d {
      TokenChars(s[1..], d);
    }
  }

  lemma {:induction false} SkipChars(s: string, d: set<char>)
    ensures forall c :: c in SkipDelims(s, d) ==> c in s
    ensures SkipDelims(s, d) != "" ==> SkipDelims(s, d)[0] !in d
  {
    if s != "" && s[0] in d {
      SkipChars(s[1..], d);
    }
  }

  lemma {:induction false} SegmentsChars(s: string, d: set<char>)
    ensures forall t :: t in Segments(s, d) ==> t != "" && forall c :: c in t ==> c in s && c !in d
    decreases |s|
  {
    var t := SkipDelims(s, d);
    if t != "" {
      SkipChars(s, d);
      TokenChars(t, d);
      SegmentsChars(DropToken(t, d), d);
    }
  }

  // ---------------------------------------------------------------- kvp_parser.c

  /** The pairs of `s`, added to those already in `m`; `None` when the text is malformed. */
  function KvpPairs(s: string, kd: set<char>, vd: set<char>, m: map<string, string>): Option<map<string, string>>
    decreases |s|
  {
    var k := SkipDelims(s, kd);
    if k == "" then Some(m) else
    var key, v := TakeToken(k, kd), SkipDelims(DropToken(k, kd), vd);
    if v == "" || key in m then None
    else KvpPairs(DropToken(v, vd), kd, vd, m[key := TakeToken(v, vd)])
  }

  /** kvp_parse_internal */
  method KvpParse(input: string, kd: set<char>, vd: set<char>) returns (result: Option<map<string, string>>)
    ensures result == KvpPairs(input, kd, vd, map[])
  {
    var tokenizer := new StringTokenizer(input);
    var m: map<string, string> := map[];
    var key := tokenizer.GetNextToken(kd);
    while key != None
      invariant fresh(tokenizer)
      invariant key == None ==> KvpPairs(input, kd, vd, map[]) == Some(m)
      invariant key.Some? ==>
        exists s: string :: KvpPairs(input, kd, vd, map[]) == KvpPairs(s, kd, vd, m)
          && SkipDelims(s, kd) != "" && key.value == TakeToken(SkipDelims(s, kd), kd)
          && tokenizer.rest == DropToken(SkipDelims(s, kd), kd)
      decreases if key == None then 0 else 1 + |tokenizer.rest|
    {
      var value := tokenizer.GetNextToken(vd);
      if value == None || key.value in m {
        return None;
      }
      m := m[key.value := value.value];
      key := tokenizer.GetNextToken(kd);
    }
    result := Some(m);
  }

  // ---------------------------------------------------------------- the token parser

  datatype Mode = Sender | Receiver

  /** The part of EVENTHUBAUTH_CBS_CONFIG that the URI of a token carries. */
  datatype UriFields = UriFields(hostName: string, eventHubPath: string, mode: Mode,
                                 senderPublisherId: Option<string>,
                                 receiverConsumerGroup: Option<string>, receiverPartitionId: Option<string>)

  /** What EventHubAuthCBS_SASTokenParse returns. */
  datatype ParsedToken = ParsedToken(fields: UriFields, uri: string, expiration: uint64)

  const URI_DELIMS: set<char> := {'%', '2', 'f'}

  /** strncmp(token, keyword, strlen(token)) == 0: the comparison stops at the end of the token. */
  predicate KeywordMatches(token: string, keyword: string) {
    token <= keyword
  }

  /** host, path, "publishers", publisher id; whatever follows is not looked at. */
  predicate SenderShape(g: seq<string>) {
    4 <= |g| && KeywordMatches(g[2], "publishers")
  }

  /** host, path, "ConsumerGroups", group, "Partitions", partition id. */
  predicate ReceiverShape(g: seq<string>) {
    && 6 <= |g| && !KeywordMatches(g[2], "publishers")
    && KeywordMatches(g[2], "ConsumerGroups") && KeywordMatches(g[4], "Partitions")
  }

  function FieldsOf(g: seq<string>): Option<UriFields> {
    if SenderShape(g) then Some(UriFields(g[0], g[1], Sender, Some(g[3]), None, None))
    else if ReceiverShape(g) then Some(UriFields(g[0], g[1], Receiver, None, Some(g[3]), Some(g[5])))
    else None
  }

  datatype UriElement = HostName | EventHub | PublisherOrConsumer | IdOrGroup | Partition | PartitionId

  function Position(e: UriElement): nat {
    match e
    case HostName => 0
    case EventHub => 1
    case PublisherOrConsumer => 2
    case IdOrGroup => 3
    case Partition => 4
    case PartitionId => 5
  }

  /** The first `k` of the segments `g` have been accepted: the scan expects `elem`, and `cfg` holds their texts. */
  predicate Scanned(g: seq<string>, k: nat, elem: UriElement, cfg: UriFields) {
    && k == Position(elem) <= |g|
    && (1 <= k ==> cfg.hostName == g[0])
    && (2 <= k ==> cfg.eventHubPath == g[1])
    && (k <= 3 ==> cfg.senderPublisherId == cfg.receiverConsumerGroup == None)
    && (k >= 3 ==> KeywordMatches(g[2], if cfg.mode == Sender then "publishers" else "ConsumerGroups"))
    && (k >= 3 && cfg.mode == Receiver ==> !KeywordMatches(g[2], "publishers"))
    && (k >= 4 ==> cfg.mode == Receiver && cfg.receiverConsumerGroup == Some(g[3]) && cfg.senderPublisherId == None)
    && (k >= 5 ==> KeywordMatches(g[4], "Partitions"))
    && cfg.receiverPartitionId == None
  }

  /** The switch in the token scan of EventHubAuthCBS_SASTokenParse, for the next token `t`. */
  method ScanToken(elem: UriElement, cfg: UriFields, t: string, ghost g: seq<string>, ghost k: nat)
    returns (newElem: UriElement, newCfg: UriFields, isError: bool, isDone: bool)
    requires Scanned(g, k, elem, cfg) && k < |g| && t == g[k]
    ensures isError ==> FieldsOf(g) == None
    ensures isDone ==> !isError && FieldsOf(g) == Some(newCfg)
    ensures !isError && !isDone ==> Scanned(g, k + 1, newElem, newCfg)
  {
    newElem, newCfg, isError, isDone := elem, cfg, false, false;
    match elem {
      case HostName =>
        newCfg, newElem := cfg.(hostName := t), EventHub;
      case EventHub =>
        newCfg, newElem := cfg.(eventHubPath := t), PublisherOrConsumer;
      case PublisherOrConsumer =>
        if KeywordMatches(t, "publishers") {
          newCfg, newElem := cfg.(mode := Sender), IdOrGroup;
        } else if KeywordMatches(t, "ConsumerGroups") {
          newCfg, newElem := cfg.(mode := Receiver), IdOrGroup;
        } else {
          isError := true;
        }
      case IdOrGroup =>
        if cfg.mode == Sender {
          newCfg, isDone := cfg.(senderPublisherId := Some(t)), true;
        } else {
          newCfg, newElem := cfg.(receiverConsumerGroup := Some(t)), Partition;
        }
      case Partition =>
        if KeywordMatches(t, "Partitions") {
          newElem := PartitionId;
        } else {
          isError := true;
        }
      case PartitionId =>
        newCfg, isDone := cfg.(receiverPartitionId := Some(t)), true;
    }
  }

  /** The token scan of EventHubAuthCBS_SASTokenParse accepts exactly the two shapes, and returns their segments. */
  method ScanUri(uri: string) returns (result: Option<UriFields>)
    ensures result == FieldsOf(Segments(uri, URI_DELIMS))
  {
    var tokenizer := new StringTokenizer(uri);
    var elem, isError, isDone := HostName, false, false;
    var cfg := UriFields("", "", Sender, None, None, None);
    ghost var g := Segments(uri, URI_DELIMS);
    ghost var k := 0;

    FirstSegment(uri);
    var token := tokenizer.GetNextToken(URI_DELIMS);
    while !isError && !isDone && token.Some?
      invariant fresh(tokenizer)
      invariant isError ==> FieldsOf(g) == None
      invariant isDone ==> !isError && FieldsOf(g) == Some(cfg)
      invariant !isError && !isDone ==> Scanned(g, k, elem, cfg) && AtSegment(g, k, token, tokenizer.rest)
      decreases if isError || isDone || token == None then 0 else 1 + |tokenizer.rest|
    {
      elem, cfg, isError, isDone := ScanToken(elem, cfg, token.value, g, k);
      if !isError && !isDone {
        NextSegment(g, k, token, tokenizer.rest);
        token := tokenizer.GetNextToken(URI_DELIMS);
      }
      k := k + 1;
    }
    if !isError && !isDone {
      TooFewSegments(g, elem, cfg);
    }
    result := if isError || !isDone then None else Some(cfg);
  }

  /** `token` is segment `k`, or there is none left, and `rest` holds the segments after it. */
  predicate AtSegment(g: seq<string>, k: nat, token: Option<string>, rest: string) {
    if token == None then k == |g|
    else k < |g| && token.value == g[k] && Segments(rest, URI_DELIMS) == g[k + 1..]
  }

  lemma FirstSegment(uri: string)
    ensures var t := SkipDelims(uri, URI_DELIMS);
      var token := if t == "" then None else Some(TakeToken(t, URI_DELIMS));
      AtSegment(Segments(uri, URI_DELIMS), 0, token, if t == "" then "" else DropToken(t, URI_DELIMS))
  {
    var t, g := SkipDelims(uri, URI_DELIMS), Segments(uri, URI_DELIMS);
    if t != "" {
      assert g == [TakeToken(t, URI_DELIMS)] + Segments(DropToken(t, URI_DELIMS), URI_DELIMS);
    }
  }

  lemma TooFewSegments(g: seq<string>, elem: UriElement, cfg: UriFields)
    requires Scanned(g, |g|, elem, cfg)
    ensures FieldsOf(g) == None
  {
  }

  lemma NextSegment(g: seq<string>, k: nat, token: Option<string>, rest: string)
    requires token.Some? && AtSegment(g, k, token, rest)
    ensures var t := SkipDelims(rest, URI_DELIMS);
      if t == "" then k + 1 == |g|
      else AtSegment(g, k + 1, Some(TakeToken(t, URI_DELIMS)), DropToken(t, URI_DELIMS))
  {
    var t := SkipDelims(rest, URI_DELIMS);
    if t != "" {
      assert g[k + 1..][0] == g[k + 1] && g[k + 1..][1..] == g[k + 2..];
      assert Segments(rest, URI_DELIMS)[1..] == Segments(DropToken(t, URI_DELIMS), URI_DELIMS);
    }
  }

  /** strtoull_s in base 10: the value of the leading digits. */
  function DigitsValue(s: string, acc: nat): nat {
    if s != "" && '0' <= s[0] <= '9' then DigitsValue(s[1..], 10 * acc + (s[0] as int - '0' as int)) else acc
  }

  function Digit(d: nat): (c: char)
    requires d < 10
    ensures '0' <= c <= '9' && c as int - '0' as int == d
  {
    ('0' as int + d) as char
  }

  function Lookup(m: map<string, string>, key: string): string {
    if key in m then m[key] else ""
  }

  const TOKEN_START := "SharedAccessSignature "
  const TOKEN_URI := "sb%3a%2f%2f"

  /** GetURIAndExpirationFromSASToken. Map_GetValueFromKey returning NULL or "" fails alike. */
  function UriAndExpiration(token: string): Option<(string, uint64)> {
    if !(TOKEN_START <= token) then None else
    var pairs := KvpPairs(token[|TOKEN_START|..], {'='}, {'&'}, map[]);
    if pairs == None then None else
    var uri := Lookup(pairs.value, "sr");
    if uri == "" || !(TOKEN_URI <= uri)
       || Lookup(pairs.value, "sig") == "" || Lookup(pairs.value, "skn") == "" || Lookup(pairs.value, "se") == ""
    then None else
    var expiration := DigitsValue(Lookup(pairs.value, "se"), 0);
    if 0x1_0000_0000_0000_0000 <= expiration then None else Some((uri[|TOKEN_URI|..], expiration))
  }

  /** EventHubAuthCBS_SASTokenParse */
  function Parse(token: string): Option<ParsedToken> {
    var u := UriAndExpiration(token);
    if u == None then None else
    var f := FieldsOf(Segments(u.value.0, URI_DELIMS));
    if f == None then None else Some(ParsedToken(f.value, u.value.0, u.value.1))
  }

  /** GetURIAndExpirationFromSASToken and EventHubAuthCBS_SASTokenParse, with the loops they run. */
  method SasTokenParse(token: string) returns (result: Option<ParsedToken>)
    ensures result == Parse(token)
  {
    if !(TOKEN_START <= token) {
      return None;
    }
    var pairs := KvpParse(token[|TOKEN_START|..], {'='}, {'&'});
    if pairs == None {
      return None;
    }
    var uri := Lookup(pairs.value, "sr");
    if uri == "" || !(TOKEN_URI <= uri) {
      return None;
    }
    if Lookup(pairs.value, "sig") == "" || Lookup(pairs.value, "skn") == "" || Lookup(pairs.value, "se") == "" {
      return None;
    }
    var expiration := DigitsValue(Lookup(pairs.value, "se"), 0);
    if 0x1_0000_0000_0000_0000 <= expiration {
      return None;
    }
    var fields := ScanUri(uri[|TOKEN_URI|..]);
    result := if fields == None then None else Some(ParsedToken(fields.value, uri[|TOKEN_URI|..], expiration));
  }

  // ---------------------------------------------------------------- the URI printer

  /**
   The URI that EventHubAuthCBS_Create builds for the AUTO credential: "sb://" and the segments below,
   separated by '/'.
   */
  function AutoUri(f: UriFields): string {
    "sb://" + AutoPath(f)
  }

  function AutoPath(f: UriFields): string {
    SlashJoined(PartsOf(f))
  }

  function PartsOf(f: UriFields): (parts: seq<string>)
    ensures parts != []
  {
    [f.hostName, f.eventHubPath] +
    if f.mode == Receiver then
      ["ConsumerGroups", Text(f.receiverConsumerGroup), "Partitions", Text(f.receiverPartitionId)]
    else if f.senderPublisherId.Some? then ["publishers", f.senderPublisherId.value]
    else []
  }

  function SlashJoined(parts: seq<string>): string
    requires parts != []
  {
    if |parts| == 1 then parts[0] else parts[0] + ("/" + SlashJoined(parts[1..]))
  }

  function Text(o: Option<string>): string {
    if o == None then "" else o.value
  }

  function HexDigit(n: nat): char
    requires n < 16
  {
    "0123456789abcdef"[n]
  }

  /** Percent-encoding with lower-case digits (section 2.1 of RFC 3986); characters in `keep` stay. */
  function UrlEncode(s: string, keep: set<char>): string {
    if s == "" then ""
    else (if s[0] in keep then [s[0]] else ['%', HexDigit(s[0] as int / 16 % 16), HexDigit(s[0] as int % 16)])
         + UrlEncode(s[1..], keep)
  }

  /** What is asked of an encoder: letters and digits stay, the characters of the two syntaxes do not. */
  predicate EncoderOk(keep: set<char>) {
    && (forall c :: 'a' <= c <= 'z' || 'A' <= c <= 'Z' || '0' <= c <= '9' ==> c in keep)
    && '%' !in keep && '/' !in keep && ':' !in keep && '&' !in keep && '=' !in keep
  }

  function Decimal(n: nat): string {
    if n < 10 then [Digit(n)] else Decimal(n / 10) + [Digit(n % 10)]
  }

  /** key=value pairs separated by '&'. */
  function KvpText(ps: seq<(string, string)>): string {
    if ps == [] then ""
    else if |ps| == 1 then ps[0].0 + "=" + ps[0].1
    else ps[0].0 + "=" + ps[0].1 + "&" + KvpText(ps[1..])
  }

  /** The token format of eventhubreceiver.h:72-79. */
  function TokenText(encodedUri: string, sig: string, expiration: nat, keyName: string): string {
    TOKEN_START + KvpText([("sr", encodedUri), ("sig", sig), ("se", Decimal(expiration)), ("skn", keyName)])
  }

  // ---------------------------------------------------------------- printing and parsing back

  lemma {:induction false} TokenThenDelim(t: string, c: char, rest: string, d: set<char>)
    requires (forall x :: x in t ==> x !in d) && c in d
    ensures TakeToken(t + [c] + rest, d) == t && DropToken(t + [c] + rest, d) == rest
    ensures TakeToken(t, d) == t && DropToken(t, d) == ""
  {
    if t != "" {
      assert (t + [c] + rest)[1..] == t[1..] + [c] + rest;
      TokenThenDelim(t[1..], c, rest, d);
    }
  }

  predicate PrintablePairs(ps: seq<(string, string)>) {
    && (forall i :: 0 <= i < |ps| ==>
          ps[i].0 != "" && '=' !in ps[i].0 && ps[i].1 != "" && '&' !in ps[i].1)
    && (forall i, j :: 0 <= i < j < |ps| ==> ps[i].0 != ps[j].0)
  }

  function AddAll(m: map<string, string>, ps: seq<(string, string)>): map<string, string>
    decreases |ps|
  {
    if ps == [] then m else AddAll(m[ps[0].0 := ps[0].1], ps[1..])
  }

  /** kvp_parser_parse gives back every printed list of pairs. */
  lemma {:induction false} KvpRoundTrip(ps: seq<(string, string)>, m: map<string, string>)
    requires PrintablePairs(ps) && forall i :: 0 <= i < |ps| ==> ps[i].0 !in m
    ensures KvpPairs(KvpText(ps), {'='}, {'&'}, m) == Some(AddAll(m, ps))
    decreases |ps|
  {
    if ps != [] {
      var (k, v) := ps[0];
      var s := KvpText(ps);
      var tail := if |ps| == 1 then v else v + "&" + KvpText(ps[1..]);
      assert s == k + ['='] + tail;
      assert s[0] == k[0] && tail[0] == v[0];
      TokenThenDelim(k, '=', tail, {'='});
      if |ps| == 1 {
        TokenThenDelim(v, '&', "", {'&'});
      } else {
        assert tail == v + ['&'] + KvpText(ps[1..]);
        TokenThenDelim(v, '&', KvpText(ps[1..]), {'&'});
        KvpRoundTrip(ps[1..], m[k := v]);
      }
    }
  }

  /** strtoull_s reads back a printed number, whatever follows it. */
  lemma {:induction false} DecimalRoundTrip(n: nat, s: string)
    ensures DigitsValue(Decimal(n) + s, 0) == DigitsValue(s, n)
  {
    var d := [Digit(n % 10)];
    if n < 10 {
      assert (Decimal(n) + s)[1..] == s;
    } else {
      DecimalRoundTrip(n / 10, d + s);
      assert Decimal(n) + s == Decimal(n / 10) + (d + s);
      assert (d + s)[1..] == s;
    }
  }

  predicate Clean(c: string, keep: set<char>) {
    c != "" && forall x :: x in c ==> x in keep && x !in URI_DELIMS
  }

  /** The components of `f` that its mode prints. */
  function Components(f: UriFields): seq<string> {
    if f.mode == Sender then [f.hostName, f.eventHubPath, Text(f.senderPublisherId)]
    else [f.hostName, f.eventHubPath, Text(f.receiverConsumerGroup), Text(f.receiverPartitionId)]
  }

  /** A configuration whose URI has the shape of a token URI: ids present for its mode, and only those. */
  predicate Printable(f: UriFields) {
    if f.mode == Sender
    then f.senderPublisherId.Some? && f.receiverConsumerGroup == f.receiverPartitionId == None
    else f.senderPublisherId == None && f.receiverConsumerGroup.Some? && f.receiverPartitionId.Some?
  }

  lemma {:induction false} EncodeAppend(a: string, b: string, keep: set<char>)
    ensures UrlEncode(a + b, keep) == UrlEncode(a, keep) + UrlEncode(b, keep)
  {
    if a == "" {
      assert a + b == b;
    } else {
      assert (a + b)[1..] == a[1..] + b;
      EncodeAppend(a[1..], b, keep);
    }
  }

  lemma {:induction false} EncodeKept(a: string, keep: set<char>)
    requires forall x :: x in a ==> x in keep
    ensures UrlEncode(a, keep) == a
  {
    if a != "" {
      EncodeKept(a[1..], keep);
    }
  }

  /** The encoded text only holds kept characters and '%'. */
  lemma {:induction false} EncodedChars(a: string, keep: set<char>)
    requires EncoderOk(keep)
    ensures forall x :: x in UrlEncode(a, keep) ==> x in keep || x == '%'
  {
    if a != "" {
      EncodedChars(a[1..], keep);
    }
  }

  /** Segment texts joined by "%2f". */
  function Joined(parts: seq<string>): string
    requires parts != []
  {
    if |parts| == 1 then parts[0] else parts[0] + "%2f" + Joined(parts[1..])
  }

  lemma {:induction false} SegmentsOfJoined(parts: seq<string>)
    requires parts != []
    requires forall i :: 0 <= i < |parts| ==> parts[i] != "" && forall x :: x in parts[i] ==> x !in URI_DELIMS
    ensures Segments(Joined(parts), URI_DELIMS) == parts
  {
    var p, s := parts[0], Joined(parts);
    if |parts| == 1 {
      TokenThenDelim(p, '%', "", URI_DELIMS);
    } else {
      var tail := Joined(parts[1..]);
      assert s == p + ['%'] + ("2f" + tail);
      TokenThenDelim(p, '%', "2f" + tail, URI_DELIMS);
      SegmentsOfJoined(parts[1..]);
      assert ("2f" + tail)[1..] == "f" + tail && ("f" + tail)[1..] == tail;
      assert SkipDelims("2f" + tail, URI_DELIMS) == SkipDelims(tail, URI_DELIMS);
      assert s[0] == p[0];
    }
  }

  lemma EncodePunctuation(keep: set<char>)
    requires EncoderOk(keep)
    ensures UrlEncode("/", keep) == "%2f" && UrlEncode("sb://", keep) == TOKEN_URI
  {
    assert "/"[1..] == "" && "//"[1..] == "/" && "://"[1..] == "//";
    assert UrlEncode("/", keep) == "%2f" + UrlEncode("", keep);
    assert UrlEncode("//", keep) == "%2f" + UrlEncode("/", keep);
    assert UrlEncode("://", keep) == "%3a" + UrlEncode("//", keep);
    EncodeAppend("sb", "://", keep);
    EncodeKept("sb", keep);
    assert "sb" + "://" == "sb://";
  }

  /** Every encoded AUTO URI starts as token URIs do; the rest is the encoding of what follows "sb://". */
  lemma EncodedUri(f: UriFields, keep: set<char>)
    requires EncoderOk(keep)
    ensures UrlEncode(AutoUri(f), keep) == TOKEN_URI + UrlEncode(AutoPath(f), keep)
    ensures '&' !in UrlEncode(AutoUri(f), keep)
  {
    EncodeAppend("sb://", AutoPath(f), keep);
    EncodePunctuation(keep);
    EncodedChars(AutoUri(f), keep);
  }

  lemma {:induction false} EncodeJoined(parts: seq<string>, keep: set<char>)
    requires EncoderOk(keep) && parts != [] && forall i :: 0 <= i < |parts| ==> forall x :: x in parts[i] ==> x in keep
    ensures UrlEncode(SlashJoined(parts), keep) == Joined(parts)
  {
    EncodeKept(parts[0], keep);
    if |parts| > 1 {
      var rest := SlashJoined(parts[1..]);
      EncodeJoined(parts[1..], keep);
      EncodeAppend(parts[0], "/" + rest, keep);
      EncodeAppend("/", rest, keep);
      EncodePunctuation(keep);
    }
  }

  lemma AddAllFour(ps: seq<(string, string)>)
    requires |ps| == 4
    ensures AddAll(map[], ps) == map[ps[0].0 := ps[0].1][ps[1].0 := ps[1].1][ps[2].0 := ps[2].1][ps[3].0 := ps[3].1]
  {
    var m1 := map[ps[0].0 := ps[0].1];
    var m2 := m1[ps[1].0 := ps[1].1];
    var m3 := m2[ps[2].0 := ps[2].1];
    assert ps[1..][1..] == ps[2..] && ps[2..][1..] == ps[3..] && ps[3..][1..] == [];
    assert AddAll(map[], ps) == AddAll(m1, ps[1..]) == AddAll(m2, ps[2..]) == AddAll(m3, ps[3..]);
    assert AddAll(m3, ps[3..]) == AddAll(m3[ps[3].0 := ps[3].1], []);
  }

  /** The key/value text of a printed token is read back as its four pairs. */
  lemma TokenPairs(uri: string, sig: string, se: string, keyName: string)
    requires uri != "" && '&' !in uri && sig != "" && '&' !in sig
    requires se != "" && '&' !in se && keyName != "" && '&' !in keyName
    ensures KvpPairs(KvpText([("sr", uri), ("sig", sig), ("se", se), ("skn", keyName)]), {'='}, {'&'}, map[])
         == Some(map["sr" := uri, "sig" := sig, "se" := se, "skn" := keyName])
  {
    var ps := [("sr", uri), ("sig", sig), ("se", se), ("skn", keyName)];
    assert "sr" != "sig" && "sr" != "skn" && "sig" != "skn" by {
      assert |"sr"| == 2 && "sig"[1] == 'i' && "skn"[1] == 'k';
    }
    assert "sr"[1] == 'r' && "se"[1] == 'e';
    KvpRoundTrip(ps, map[]);
    AddAllFour(ps);
  }

  /** Parsing a printed token yields the encoded URI after its scheme, and the printed expiration. */
  lemma ParsePrinted(f: UriFields, keep: set<char>, sig: string, expiration: uint64, keyName: string)
    requires EncoderOk(keep) && sig != "" && '&' !in sig && keyName != "" && '&' !in keyName
    ensures UriAndExpiration(TokenText(UrlEncode(AutoUri(f), keep), sig, expiration, keyName))
         == Some((UrlEncode(AutoPath(f), keep), expiration))
  {
    var uri, se := UrlEncode(AutoUri(f), keep), Decimal(expiration);
    EncodedUri(f, keep);
    DecimalChars(expiration);
    DecimalRoundTrip(expiration, "");
    assert se + "" == se;
    TokenPairs(uri, sig, se, keyName);
    PrefixThenRest(TOKEN_START, KvpText([("sr", uri), ("sig", sig), ("se", se), ("skn", keyName)]));
    PrefixThenRest(TOKEN_URI, UrlEncode(AutoPath(f), keep));
    assert "sr"[1] == 'r' && "se"[1] == 'e' && "sig"[1] == 'i' && "skn"[1] == 'k';
  }

  lemma PrefixThenRest(p: string, r: string)
    ensures p <= p + r && (p + r)[|p|..] == r
  {
  }

  lemma {:induction false} DecimalChars(n: nat)
    ensures Decimal(n) != "" && '&' !in Decimal(n)
  {
    if n >= 10 {
      DecimalChars(n / 10);
    }
  }

  /**
   The round trip, exactly: printing a configuration as a token and parsing it gives the configuration back
   if and only if the ids are those its mode needs and every component is non-empty, is left alone by the
   encoder, and has none of '%', '2', 'f'.
   */
  lemma RoundTripExactly(f: UriFields, keep: set<char>, sig: string, expiration: uint64, keyName: string)
    requires EncoderOk(keep) && sig != "" && '&' !in sig && keyName != "" && '&' !in keyName
    ensures var p := Parse(TokenText(UrlEncode(AutoUri(f), keep), sig, expiration, keyName));
      && (p.Some? ==> p.value.expiration == expiration)
      && ((p.Some? && p.value.fields == f) <==> Printable(f) && forall c :: c in Components(f) ==> Clean(c, keep))
  {
    ParsePrinted(f, keep, sig, expiration, keyName);
    FieldsRoundTripExactly(f, keep);
  }

  lemma FieldsRoundTripExactly(f: UriFields, keep: set<char>)
    requires EncoderOk(keep)
    ensures FieldsOf(Segments(UrlEncode(AutoPath(f), keep), URI_DELIMS)) == Some(f) <==>
      Printable(f) && forall c :: c in Components(f) ==> Clean(c, keep)
  {
    if FieldsOf(Segments(UrlEncode(AutoPath(f), keep), URI_DELIMS)) == Some(f) {
      RecoveredIsClean(f, keep);
    } else if Printable(f) && forall c :: c in Components(f) ==> Clean(c, keep) {
      CleanSegments(f, keep);
    }
  }

  /** What comes back was made of segments, which are non-empty and free of delimiters. */
  lemma RecoveredIsClean(f: UriFields, keep: set<char>)
    requires EncoderOk(keep) && FieldsOf(Segments(UrlEncode(AutoPath(f), keep), URI_DELIMS)) == Some(f)
    ensures Printable(f) && forall c :: c in Components(f) ==> Clean(c, keep)
  {
    var uri := UrlEncode(AutoPath(f), keep);
    var g := Segments(uri, URI_DELIMS);
    SegmentsChars(uri, URI_DELIMS);
    EncodedChars(AutoPath(f), keep);
    forall c | c in Components(f)
      ensures Clean(c, keep)
    {
      assert c in g;
    }
  }

  lemma KeywordsAreClean(keep: set<char>)
    requires EncoderOk(keep)
    ensures Clean("publishers", keep) && Clean("ConsumerGroups", keep) && Clean("Partitions", keep)
  {
  }

  lemma CleanSegments(f: UriFields, keep: set<char>)
    requires EncoderOk(keep) && Printable(f) && forall c :: c in Components(f) ==> Clean(c, keep)
    ensures Segments(UrlEncode(AutoPath(f), keep), URI_DELIMS) == PartsOf(f)
  {
    var parts := PartsOf(f);
    assert forall i :: 0 <= i < |parts| ==> Clean(parts[i], keep) by {
      var cs := Components(f);
      assert cs[0] in cs && cs[1] in cs && cs[2] in cs && cs[|cs| - 1] in cs;
      KeywordsAreClean(keep);
    }
    EncodeJoined(parts, keep);
    SegmentsOfJoined(parts);
  }

  lemma DefaultIsNotClean(keep: set<char>)
    ensures !Clean("$Default", keep)
  {
    assert "$Default"[3] == 'f' && "$Default"[3] in "$Default";
  }

  /** The documented default consumer group does not survive: its 'f' is taken for a delimiter. */
  lemma DefaultConsumerGroupIsLost(f: UriFields, keep: set<char>, sig: string, expiration: uint64, keyName: string)
    requires EncoderOk(keep) && sig != "" && '&' !in sig && keyName != "" && '&' !in keyName
    requires f.mode == Receiver && f.receiverConsumerGroup == Some("$Default")
    ensures var p := Parse(TokenText(UrlEncode(AutoUri(f), keep), sig, expiration, keyName));
      !(p.Some? && p.value.fields == f)
  {
    RoundTripExactly(f, keep, sig, expiration, keyName);
    DefaultIsNotClean(keep);
    assert Components(f)[2] == "$Default" && Components(f)[2] in Components(f);
  }
}

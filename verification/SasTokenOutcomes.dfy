/** Which key/value texts and which tokens the parsers accept, printed by whomever. */
module SasTokenOutcomes {
  import opened Common
  import opened SasToken

  /** Keys and values that the delimiters do not break: any list, also one with repeated keys. */
  predicate Plain(ps: seq<(string, string)>) {
    forall i :: 0 <= i < |ps| ==> ps[i].0 != "" && '=' !in ps[i].0 && ps[i].1 != "" && '&' !in ps[i].1
  }

  predicate HasKey(ps: seq<(string, string)>, key: string) {
    exists i :: 0 <= i < |ps| && ps[i].0 == key
  }

  predicate DistinctKeys(ps: seq<(string, string)>) {
    forall i, j :: 0 <= i < j < |ps| ==> ps[i].0 != ps[j].0
  }

  lemma DistinctCons(ps: seq<(string, string)>, m: map<string, string>)
    requires ps != []
    ensures var (k, v) := ps[0];
      DistinctKeys(ps) && (forall i :: 0 <= i < |ps| ==> ps[i].0 !in m) <==>
        k !in m && DistinctKeys(ps[1..]) && forall i :: 0 <= i < |ps[1..]| ==> ps[1..][i].0 !in m[k := v]
  {
    assert forall i :: 0 <= i < |ps[1..]| ==> ps[1..][i] == ps[i + 1];
    assert forall i :: 1 <= i < |ps| ==> ps[i] == ps[1..][i - 1];
  }

  /** Every list of pairs is read back if no key is repeated, and refused if one is. */
  lemma {:induction false} KvpAcceptsExactly(ps: seq<(string, string)>, m: map<string, string>)
    requires Plain(ps)
    ensures KvpPairs(KvpText(ps), {'='}, {'&'}, m) ==
      if DistinctKeys(ps) && forall i :: 0 <= i < |ps| ==> ps[i].0 !in m then Some(AddAll(m, ps)) else None
    decreases |ps|
  {
    if ps != [] {
      var (k, v) := ps[0];
      DistinctCons(ps, m);
      KvpFirst(ps, m);
      if k !in m {
        KvpAcceptsExactly(ps[1..], m[k := v]);
      }
    }
  }

  /** The first pair is read, and the rest with it added. */
  lemma KvpFirst(ps: seq<(string, string)>, m: map<string, string>)
    requires Plain(ps) && ps != []
    ensures var (k, v) := ps[0];
      KvpPairs(KvpText(ps), {'='}, {'&'}, m) ==
        if k in m then None else KvpPairs(KvpText(ps[1..]), {'='}, {'&'}, m[k := v])
  {
    var (k, v) := ps[0];
    var s := KvpText(ps);
    var tail := if |ps| == 1 then v else v + "&" + KvpText(ps[1..]);
    assert s == k + ['='] + tail;
    assert s[0] == k[0] && tail[0] == v[0];
    TokenThenDelim(k, '=', tail, {'='});
    if |ps| == 1 {
      TokenThenDelim(v, '&', "", {'&'});
    } else {
      assert tail == v + ['&'] + KvpText(ps[1..]);
      TokenThenDelim(v, '&', KvpText(ps[1..]), {'&'});
    }
  }

  /** The value of `key`, or "" without one. */
  function ValueOf(ps: seq<(string, string)>, key: string): string {
    if ps == [] then "" else if ps[0].0 == key then ps[0].1 else ValueOf(ps[1..], key)
  }

  lemma {:induction false} AddAllLookup(m: map<string, string>, ps: seq<(string, string)>, key: string)
    requires DistinctKeys(ps) && forall i :: 0 <= i < |ps| ==> ps[i].0 !in m
    ensures Lookup(AddAll(m, ps), key) == if HasKey(ps, key) then ValueOf(ps, key) else Lookup(m, key)
    decreases |ps|
  {
    if ps != [] {
      DistinctCons(ps, m);
      AddAllLookup(m[ps[0].0 := ps[0].1], ps[1..], key);
      assert forall i :: 0 <= i < |ps[1..]| ==> ps[1..][i] == ps[i + 1];
      assert forall i :: 1 <= i < |ps| ==> ps[i] == ps[1..][i - 1];
    }
  }

  lemma {:induction false} NoKeyNoValue(ps: seq<(string, string)>, key: string)
    requires Plain(ps)
    ensures ValueOf(ps, key) == "" <==> !HasKey(ps, key)
  {
    if ps != [] {
      assert forall i :: 0 <= i < |ps[1..]| ==> ps[1..][i] == ps[i + 1];
      assert forall i :: 1 <= i < |ps| ==> ps[i] == ps[1..][i - 1];
      NoKeyNoValue(ps[1..], key);
    }
  }

  /**
   A token made of any pairs is accepted if and only if no key is repeated, its resource, signature, key name and expiry
   are there, the resource starts as token URIs do, and the expiry is below 2^64; the result holds the rest of the
   resource and the expiry.
   */
  lemma TokenAcceptedExactly(ps: seq<(string, string)>)
    requires Plain(ps)
    ensures var expiry := DigitsValue(ValueOf(ps, "se"), 0);
      UriAndExpiration(TOKEN_START + KvpText(ps)) ==
        if && DistinctKeys(ps) && HasKey(ps, "sr") && HasKey(ps, "sig") && HasKey(ps, "skn") && HasKey(ps, "se")
           && TOKEN_URI <= ValueOf(ps, "sr") && expiry < 0x1_0000_0000_0000_0000
        then Some((ValueOf(ps, "sr")[|TOKEN_URI|..], expiry)) else None
  {
    PrefixThenRest(TOKEN_START, KvpText(ps));
    KvpAcceptsExactly(ps, map[]);
    forall key
      ensures DistinctKeys(ps) ==> Lookup(AddAll(map[], ps), key) == ValueOf(ps, key)
      ensures ValueOf(ps, key) == "" <==> !HasKey(ps, key)
    {
      NoKeyNoValue(ps, key);
      if DistinctKeys(ps) {
        AddAllLookup(map[], ps, key);
      }
    }
  }

  /** A text without the start of a token is refused. */
  lemma OtherTextRefused(token: string)
    requires !(TOKEN_START <= token)
    ensures UriAndExpiration(token) == None && Parse(token) == None
  {
  }

  /** A key without a value after it makes a text malformed. */
  lemma MissingValueRefused(k: string, m: map<string, string>)
    requires k != "" && '=' !in k
    ensures KvpPairs(k + "=", {'='}, {'&'}, m) == None
  {
    TokenThenDelim(k, '=', "", {'='});
    assert k + ['='] + "" == k + "=";
    assert (k + "=")[0] == k[0];
  }

  // ---------------------------------------------------------------- the URI

  /** The URI of a configuration, spelled out for both modes. */
  lemma UriIsSpelled(f: UriFields)
    requires Printable(f)
    ensures AutoUri(f) == "sb://" + (f.hostName + ("/" + (f.eventHubPath + ("/" +
      if f.mode == Sender then "publishers" + ("/" + f.senderPublisherId.value)
      else "ConsumerGroups" + ("/" + (f.receiverConsumerGroup.value
                                      + ("/" + ("Partitions" + ("/" + f.receiverPartitionId.value)))))))))
  {
    var parts := PartsOf(f);
    assert SlashJoined(parts) == parts[0] + ("/" + SlashJoined(parts[1..]));
    assert SlashJoined(parts[1..]) == parts[1] + ("/" + SlashJoined(parts[2..])) by {
      assert parts[1..][1..] == parts[2..];
    }
    assert SlashJoined(parts[2..]) == parts[2] + ("/" + SlashJoined(parts[3..])) by {
      assert parts[2..][1..] == parts[3..];
    }
    if f.mode == Receiver {
      assert SlashJoined(parts[3..]) == parts[3] + ("/" + SlashJoined(parts[4..])) by {
        assert parts[3..][1..] == parts[4..];
      }
      assert SlashJoined(parts[4..]) == parts[4] + ("/" + SlashJoined(parts[5..])) by {
        assert parts[4..][1..] == parts[5..];
      }
    }
  }

  predicate Undelimited(segment: string) {
    segment != "" && forall x :: x in segment ==> x !in URI_DELIMS
  }

  predicate AllUndelimited(g: seq<string>) {
    g != [] && forall i :: 0 <= i < |g| ==> Undelimited(g[i])
  }

  lemma KeywordsUndelimited()
    ensures Undelimited("publishers") && Undelimited("ConsumerGroups") && Undelimited("Partitions")
    ensures KeywordMatches("publishers", "publishers") && !KeywordMatches("ConsumerGroups", "publishers")
    ensures KeywordMatches("ConsumerGroups", "ConsumerGroups") && KeywordMatches("Partitions", "Partitions")
  {
    assert "ConsumerGroups"[0] == 'C' && "publishers"[0] == 'p';
  }

  lemma JoinedIsRead(g: seq<string>)
    requires AllUndelimited(g)
    ensures FieldsOf(Segments(Joined(g), URI_DELIMS)) == FieldsOf(g)
  {
    SegmentsOfJoined(g);
  }

  /** Host, path, "publishers" and id are read as these, whatever follows. */
  lemma SenderUriIsRead(g: seq<string>)
    requires AllUndelimited(g) && |g| >= 4 && g[2] == "publishers"
    ensures FieldsOf(Segments(Joined(g), URI_DELIMS)) == Some(UriFields(g[0], g[1], Sender, Some(g[3]), None, None))
  {
    JoinedIsRead(g);
  }

  /** Host, path, "ConsumerGroups", group, "Partitions" and id likewise. */
  lemma ReceiverUriIsRead(g: seq<string>)
    requires AllUndelimited(g) && |g| >= 6 && g[2] == "ConsumerGroups" && g[4] == "Partitions"
    ensures FieldsOf(Segments(Joined(g), URI_DELIMS)) ==
      Some(UriFields(g[0], g[1], Receiver, None, Some(g[3]), Some(g[5])))
  {
    KeywordsUndelimited();
    JoinedIsRead(g);
  }
}

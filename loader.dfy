/** The loader URL for the Google Maps JavaScript API, built from the
    application's `ember-google-maps` configuration (`buildGoogleMapsUrl`). */
module LoaderUrl {

  import opened Js
  import opened Seqs
  import opened UriEncoding
  import opened UriDecoding

  /** The configuration fields the builder reads. A string field that is
      missing or empty is falsy and reads as "". `baseUrl` falls back to the
      default only when it is missing, as a destructuring default does. */
  datatype Config = Config(
    baseUrl: Option<string>,
    channel: string,
    client: string,
    key: string,
    language: string,
    libraries: seq<string>,
    protocol: string,
    region: string,
    version: string,
    mapIds: string)

  const DefaultBaseUrl: string := "//maps.googleapis.com/maps/api/js"

  /** The two developer-misuse warnings, in the order they are issued. */
  datatype Warning = KeyAndClient | ChannelWithoutClient

  /** `Array.prototype.join`. */
  function Join(parts: seq<string>, sep: char): (r: string)
    ensures parts == [] ==> r == ""
    ensures |parts| == 1 ==> r == parts[0]
  {
    if parts == [] then ""
    else if |parts| == 1 then parts[0]
    else parts[0] + [sep] + Join(parts[1..], sep)
  }

  /** `String.prototype.split` with a one-character separator; like
      JavaScript it gives `[""]` for the empty string. */
  function Split(s: string, sep: char): (r: seq<string>)
    ensures |r| >= 1
  {
    if s == [] then [""]
    else
      var rest := Split(s[1..], sep);
      if s[0] == sep then [""] + rest else [[s[0]] + rest[0]] + rest[1..]
  }

  /** One query parameter: its name, its raw value, and whether it is sent. */
  datatype Field = Field(name: string, value: string, present: bool)

  /** The query parameters in the order the builder considers them. */
  const ParamOrder: seq<string> :=
    ["v", "client", "channel", "libraries", "region", "language", "key", "map_ids"]

  /** The `k`-th parameter the builder considers. A string field is sent when
      it is truthy; `libraries` is sent when the list is non-empty. */
  function FieldAt(c: Config, k: nat): (f: Field)
    requires k < |ParamOrder|
    ensures f.name == ParamOrder[k]
  {
    match k
    case 0 => Field("v", c.version, c.version != "")
    case 1 => Field("client", c.client, c.client != "")
    case 2 => Field("channel", c.channel, c.channel != "")
    case 3 => Field("libraries", Join(c.libraries, ','), |c.libraries| > 0)
    case 4 => Field("region", c.region, c.region != "")
    case 5 => Field("language", c.language, c.language != "")
    case 6 => Field("key", c.key, c.key != "")
    case _ => Field("map_ids", c.mapIds, c.mapIds != "")
  }

  /** `name=` followed by the encoded value. */
  function Param(f: Field): string {
    f.name + "=" + Encode(f.value)
  }

  /** The `j`-th parameter as the builder would push it. */
  function ParamAt(c: Config, j: nat): string {
    if j < |ParamOrder| then Param(FieldAt(c, j)) else ""
  }

  /** Whether the builder pushes the `j`-th parameter. */
  predicate SentAt(c: Config, j: nat) {
    j < |ParamOrder| && FieldAt(c, j).present
  }

  /** The parameters pushed after the first `k` tests of the chain. This is
      `Seqs.Pushed` specialised to a configuration (see `UpToIsPushed`), kept
      separate because the verifier unfolds it more cheaply. */
  function ParamsUpTo(c: Config, k: nat): seq<string> {
    if k == 0 then [] else ParamsUpTo(c, k - 1) + (if SentAt(c, k - 1) then [ParamAt(c, k - 1)] else [])
  }

  /** Positions, among the first `k` tests, whose parameter is pushed; the
      same as `Seqs.PushedPositions` (see `UpToIsPushed`). */
  function PositionsUpTo(c: Config, k: nat): seq<nat> {
    if k == 0 then [] else PositionsUpTo(c, k - 1) + (if SentAt(c, k - 1) then [k - 1] else [])
  }

  /** The chain is an instance of `Pushed`. */
  lemma {:induction false} UpToIsPushed(c: Config, k: nat)
    ensures ParamsUpTo(c, k) == Pushed((j: nat) => ParamAt(c, j), (j: nat) => SentAt(c, j), k)
    ensures PositionsUpTo(c, k) == PushedPositions((j: nat) => SentAt(c, j), k)
  {
    if k > 0 {
      UpToIsPushed(c, k - 1);
    }
  }

  function QueryParams(c: Config): seq<string> {
    ParamsUpTo(c, |ParamOrder|)
  }

  /** One test of the chain: push the parameter when it is sent. */
  lemma PushStep(c: Config, k: nat, before: seq<string>, after: seq<string>)
    requires before == ParamsUpTo(c, k)
    requires after == if SentAt(c, k) then before + [ParamAt(c, k)] else before
    ensures after == ParamsUpTo(c, k + 1)
  {
  }

  /** Each field's test and parameter, as the builder spells them. */
  lemma Spelling0(c: Config)
    ensures SentAt(c, 0) == (c.version != "") && ParamAt(c, 0) == "v=" + Encode(c.version)
  {
    assert "v" + "=" == "v=";
  }

  lemma Spelling1(c: Config)
    ensures SentAt(c, 1) == (c.client != "") && ParamAt(c, 1) == "client=" + Encode(c.client)
  {
    assert "client" + "=" == "client=";
  }

  lemma Spelling2(c: Config)
    ensures SentAt(c, 2) == (c.channel != "") && ParamAt(c, 2) == "channel=" + Encode(c.channel)
  {
    assert "channel" + "=" == "channel=";
  }

  lemma Spelling3(c: Config)
    ensures SentAt(c, 3) == (|c.libraries| > 0) && ParamAt(c, 3) == "libraries=" + Encode(Join(c.libraries, ','))
  {
    assert "libraries" + "=" == "libraries=";
  }

  lemma Spelling4(c: Config)
    ensures SentAt(c, 4) == (c.region != "") && ParamAt(c, 4) == "region=" + Encode(c.region)
  {
    assert "region" + "=" == "region=";
  }

  lemma Spelling5(c: Config)
    ensures SentAt(c, 5) == (c.language != "") && ParamAt(c, 5) == "language=" + Encode(c.language)
  {
    assert "language" + "=" == "language=";
  }

  lemma Spelling6(c: Config)
    ensures SentAt(c, 6) == (c.key != "") && ParamAt(c, 6) == "key=" + Encode(c.key)
  {
    assert "key" + "=" == "key=";
  }

  lemma Spelling7(c: Config)
    ensures SentAt(c, 7) == (c.mapIds != "") && ParamAt(c, 7) == "map_ids=" + Encode(c.mapIds)
  {
    assert "map_ids" + "=" == "map_ids=";
    assert FieldAt(c, 7) == Field("map_ids", c.mapIds, c.mapIds != "");
  }

  predicate HasCredentials(c: Config) {
    c.key != "" || c.client != ""
  }

  function Warnings(c: Config): seq<Warning> {
    if !HasCredentials(c) then []
    else
      (if c.key != "" && c.client != "" then [KeyAndClient] else [])
      + (if c.channel != "" && c.client == "" then [ChannelWithoutClient] else [])
  }

  /** What precedes the `?`: the optional `protocol:` and the base URL. */
  function Head(c: Config): string {
    var base := match c.baseUrl case Some(b) => b case None => DefaultBaseUrl;
    if c.protocol != "" then c.protocol + ":" + base else base
  }

  /** The loader URL, or "" when neither a key nor a client id is given. */
  function Url(c: Config): string {
    if !HasCredentials(c) then "" else Head(c) + "?" + Join(QueryParams(c), '&')
  }

  /** The chain of tests of `buildGoogleMapsUrl` that pushes the query
      parameters one by one. */
  method PushParams(c: Config) returns (params: seq<string>)
    ensures params == QueryParams(c)
  {
    params := [];
    ghost var before := params;
    ghost var k: nat := 0;
    if c.version != "" {
      params := params + ["v=" + Encode(c.version)];
    }
    Spelling0(c);
    PushStep(c, k, before, params);
    k := k + 1;
    before := params;
    if c.client != "" {
      params := params + ["client=" + Encode(c.client)];
    }
    Spelling1(c);
    PushStep(c, k, before, params);
    k := k + 1;
    before := params;
    if c.channel != "" {
      params := params + ["channel=" + Encode(c.channel)];
    }
    Spelling2(c);
    PushStep(c, k, before, params);
    k := k + 1;
    before := params;
    if |c.libraries| > 0 {
      params := params + ["libraries=" + Encode(Join(c.libraries, ','))];
    }
    Spelling3(c);
    PushStep(c, k, before, params);
    k := k + 1;
    before := params;
    if c.region != "" {
      params := params + ["region=" + Encode(c.region)];
    }
    Spelling4(c);
    PushStep(c, k, before, params);
    k := k + 1;
    before := params;
    if c.language != "" {
      params := params + ["language=" + Encode(c.language)];
    }
    Spelling5(c);
    PushStep(c, k, before, params);
    k := k + 1;
    before := params;
    if c.key != "" {
      params := params + ["key=" + Encode(c.key)];
    }
    Spelling6(c);
    PushStep(c, k, before, params);
    k := k + 1;
    before := params;
    if c.mapIds != "" {
      params := params + ["map_ids=" + Encode(c.mapIds)];
    }
    Spelling7(c);
    PushStep(c, k, before, params);
  }

  /** `buildGoogleMapsUrl(config)`: the parameters are pushed one by one in a
      chain of tests; warnings come back as a list instead of being written
      to the console. */
  method BuildGoogleMapsUrl(c: Config) returns (src: string, warnings: seq<Warning>)
    ensures src == Url(c)
    ensures warnings == Warnings(c)
  {
    if c.key == "" && c.client == "" {
      return "", [];
    }
    warnings := [];
    if c.key != "" && c.client != "" {
      warnings := warnings + [KeyAndClient];
    }
    if c.channel != "" && c.client == "" {
      warnings := warnings + [ChannelWithoutClient];
    }
    assert warnings == Warnings(c);
    src := match c.baseUrl case Some(b) => b case None => DefaultBaseUrl;
    var params := PushParams(c);
    if c.protocol != "" {
      src := c.protocol + ":" + src;
    }
    src := src + "?" + Join(params, '&');
  }

  // ---------------------------------------------------------------------
  // Properties of the loader URL.

  /** Without a key and without a client id the URL is empty and nothing is
      warned about; with either of them it is not empty. */
  lemma UrlEmptyIff(c: Config)
    ensures Url(c) == "" <==> !HasCredentials(c)
    ensures !HasCredentials(c) ==> Warnings(c) == []
  {
  }

  /** Positions in `ParamOrder` of the parameters that are sent. */
  function QueryPositions(c: Config): seq<nat> {
    PositionsUpTo(c, |ParamOrder|)
  }

  /** The parameters are exactly those of the fields that are sent, each
      once, in the fixed order `ParamOrder`. */
  lemma ParamsInFixedOrder(c: Config)
    ensures var idx := QueryPositions(c);
      && |QueryParams(c)| == |idx|
      && (forall i :: 0 <= i < |idx| ==> idx[i] < |ParamOrder| && QueryParams(c)[i] == Param(FieldAt(c, idx[i])))
      && (forall i, i' :: 0 <= i < i' < |idx| ==> idx[i] < idx[i'])
      && (forall j :: 0 <= j < |ParamOrder| ==> (j in idx <==> FieldAt(c, j).present))
  {
    UpToIsPushed(c, |ParamOrder|);
    PushedInOrder((j: nat) => ParamAt(c, j), (j: nat) => SentAt(c, j), |ParamOrder|);
  }

  /** A field that is sent has its parameter in the query. */
  lemma SentParamListed(c: Config, j: nat)
    requires j < |ParamOrder| && FieldAt(c, j).present
    ensures Param(FieldAt(c, j)) in QueryParams(c)
  {
    ParamsInFixedOrder(c);
    var idx := QueryPositions(c);
    var i :| 0 <= i < |idx| && idx[i] == j;
  }

  /** Key and client together: warned about, yet both are still sent. */
  lemma KeyAndClientBothSent(c: Config)
    requires c.key != "" && c.client != ""
    ensures KeyAndClient in Warnings(c)
    ensures Url(c) == Head(c) + "?" + Join(QueryParams(c), '&')
    ensures "client=" + Encode(c.client) in QueryParams(c)
    ensures "key=" + Encode(c.key) in QueryParams(c)
  {
    SentParamListed(c, 1);
    SentParamListed(c, 6);
    assert "client" + "=" == "client=";
    assert "key" + "=" == "key=";
  }

  /** A channel without a client id: warned about, yet still sent. */
  lemma ChannelWithoutClientSent(c: Config)
    requires c.channel != "" && c.client == "" && c.key != ""
    ensures ChannelWithoutClient in Warnings(c)
    ensures KeyAndClient !in Warnings(c)
    ensures "channel=" + Encode(c.channel) in QueryParams(c)
  {
    SentParamListed(c, 2);
    assert "channel" + "=" == "channel=";
  }

  /** The name of a parameter: what precedes its first `=`. */
  function NameOf(p: string): string {
    if p == [] || p[0] == '=' then [] else [p[0]] + NameOf(p[1..])
  }

  lemma {:induction false} NameOfParam(n: string, rest: string)
    requires '=' !in n
    ensures NameOf(n + "=" + rest) == n
  {
    if n != [] {
      assert (n + "=" + rest)[1..] == n[1..] + "=" + rest;
      NameOfParam(n[1..], rest);
    }
  }

  /** The name of every parameter is its field's name. */
  lemma ParamNamed(f: Field)
    requires '=' !in f.name
    ensures NameOf(Param(f)) == f.name
  {
    NameOfParam(f.name, Encode(f.value));
  }

  lemma NamesPlain(k: nat)
    requires k < |ParamOrder|
    ensures '=' !in ParamOrder[k] && '&' !in ParamOrder[k]
  {
  }

  lemma NamesDistinct(j: nat, k: nat)
    requires j < |ParamOrder| && k < |ParamOrder| && j != k
    ensures ParamOrder[j] != ParamOrder[k]
  {
  }

  /** Each parameter is named after the field at its position. */
  lemma QueryNames(c: Config)
    ensures |QueryParams(c)| == |QueryPositions(c)|
    ensures forall i :: 0 <= i < |QueryParams(c)| ==>
      QueryPositions(c)[i] < |ParamOrder| && NameOf(QueryParams(c)[i]) == ParamOrder[QueryPositions(c)[i]]
  {
    ParamsInFixedOrder(c);
    var idx := QueryPositions(c);
    var ps := QueryParams(c);
    forall i | 0 <= i < |idx|
      ensures NameOf(ps[i]) == ParamOrder[idx[i]]
    {
      NamesPlain(idx[i]);
      ParamNamed(FieldAt(c, idx[i]));
    }
  }

  /** `libraries` is sent at most once: when the list is empty no parameter
      has that name, otherwise exactly one does, the encoded comma-join. */
  lemma LibrariesOnce(c: Config)
    ensures |c.libraries| == 0 ==>
      forall i :: 0 <= i < |QueryParams(c)| ==> NameOf(QueryParams(c)[i]) != "libraries"
    ensures |c.libraries| > 0 ==>
      exists i :: 0 <= i < |QueryParams(c)| && QueryParams(c)[i] == "libraries=" + Encode(Join(c.libraries, ',')) &&
        forall i' :: 0 <= i' < |QueryParams(c)| && i' != i ==> NameOf(QueryParams(c)[i']) != "libraries"
  {
    ParamsInFixedOrder(c);
    QueryNames(c);
    var idx := QueryPositions(c);
    var ps := QueryParams(c);
    if |c.libraries| > 0 {
      assert 3 in idx;
      var i :| 0 <= i < |idx| && idx[i] == 3;
      Spelling3(c);
      assert ps[i] == ParamAt(c, 3);
      forall i' | 0 <= i' < |ps| && i' != i
        ensures NameOf(ps[i']) != "libraries"
      {
        assert idx[i'] != 3;
        NamesDistinct(idx[i'], 3);
      }
    }
  }

  lemma {:induction false} SplitNoSeparator(p: string, sep: char)
    requires sep !in p
    ensures Split(p, sep) == [p]
  {
    if p != [] {
      SplitNoSeparator(p[1..], sep);
      assert [p[0]] + p[1..] == p;
    }
  }

  lemma {:induction false} SplitAtSeparator(p: string, sep: char, rest: string)
    requires sep !in p
    ensures Split(p + [sep] + rest, sep) == [p] + Split(rest, sep)
  {
    if p == [] {
      assert p + [sep] + rest == [sep] + rest;
      assert ([sep] + rest)[1..] == rest;
    } else {
      var whole := p + [sep] + rest;
      assert whole[1..] == p[1..] + [sep] + rest;
      SplitAtSeparator(p[1..], sep, rest);
      assert [p[0]] + p[1..] == p;
    }
  }

  /** Splitting a join gives back the parts, provided none of them holds the
      separator and there is at least one. */
  lemma {:induction false} SplitJoin(parts: seq<string>, sep: char)
    requires parts != []
    requires forall i :: 0 <= i < |parts| ==> sep !in parts[i]
    ensures Split(Join(parts, sep), sep) == parts
  {
    if |parts| == 1 {
      SplitNoSeparator(parts[0], sep);
    } else {
      SplitJoin(parts[1..], sep);
      SplitAtSeparator(parts[0], sep, Join(parts[1..], sep));
      assert [parts[0]] + parts[1..] == parts;
    }
  }

  /** The URL is `protocol:` (when given), the base URL, `?` and the query;
      splitting the query on `&` gives back exactly the pushed parameters,
      in order. */
  lemma QueryRoundTrip(c: Config)
    requires HasCredentials(c)
    ensures Url(c) == Head(c) + "?" + Join(QueryParams(c), '&')
    ensures Split(Join(QueryParams(c), '&'), '&') == QueryParams(c)
  {
    var ps := QueryParams(c);
    ParamsInFixedOrder(c);
    if c.client != "" {
      SentParamListed(c, 1);
    } else {
      SentParamListed(c, 6);
    }
    var idx := QueryPositions(c);
    forall i | 0 <= i < |ps| ensures '&' !in ps[i] {
      var f := FieldAt(c, idx[i]);
      NamesPlain(idx[i]);
      NoSeparators(f.value);
    }
    SplitJoin(ps, '&');
  }

  /** A parameter splits on `=` into its name and its encoded value, and
      `decodeURIComponent` gives the raw value back. */
  lemma ParamDecodes(f: Field)
    requires '=' !in f.name
    ensures Split(Param(f), '=') == [f.name, Encode(f.value)]
    ensures Decode(Encode(f.value)) == Some(f.value)
  {
    NoSeparators(f.value);
    SplitNoSeparator(Encode(f.value), '=');
    SplitAtSeparator(f.name, '=', Encode(f.value));
    DecodeEncode(f.value);
  }

  /** Every parameter of the query reads back as the name and, once decoded,
      the value of the field at its position. */
  lemma QueryValuesDecode(c: Config)
    ensures |QueryParams(c)| == |QueryPositions(c)|
    ensures forall i :: 0 <= i < |QueryParams(c)| ==>
      && QueryPositions(c)[i] < |ParamOrder|
      && var f := FieldAt(c, QueryPositions(c)[i]);
      && Split(QueryParams(c)[i], '=') == [ParamOrder[QueryPositions(c)[i]], Encode(f.value)]
      && Decode(Encode(f.value)) == Some(f.value)
  {
    ParamsInFixedOrder(c);
    var idx := QueryPositions(c);
    forall i | 0 <= i < |idx|
      ensures Split(QueryParams(c)[i], '=') == [ParamOrder[idx[i]], Encode(FieldAt(c, idx[i]).value)]
      ensures Decode(Encode(FieldAt(c, idx[i]).value)) == Some(FieldAt(c, idx[i]).value)
    {
      NamesPlain(idx[i]);
      ParamDecodes(FieldAt(c, idx[i]));
    }
  }

  /** When no library name holds a comma, the `libraries` value decodes and
      splits back into the configured list. */
  lemma LibrariesRoundTrip(c: Config)
    requires |c.libraries| > 0
    requires forall i :: 0 <= i < |c.libraries| ==> ',' !in c.libraries[i]
    ensures Decode(Encode(FieldAt(c, 3).value)) == Some(Join(c.libraries, ','))
    ensures Split(Join(c.libraries, ','), ',') == c.libraries
  {
    DecodeEncode(Join(c.libraries, ','));
    SplitJoin(c.libraries, ',');
  }
}

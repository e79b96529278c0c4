/**
 * The sequential logic of pkg/protocols/common/uncover/uncover.go: the
 * output templating of one discovery result, and the grouping of template
 * metadata queries by search engine.
 */
module Uncover {
  import opened Wrappers
  import opened GoText
  import opened Types

  // ---------------------------------------------------------------------
  // strings.Replacer
  // ---------------------------------------------------------------------

  /** One old/new pair of a strings.Replacer. */
  datatype Pair = Pair(pattern: ByteString, replacement: ByteString)

  predicate NonEmptyOlds(pairs: seq<Pair>)
  {
    forall j :: 0 <= j < |pairs| ==> pairs[j].pattern != []
  }

  /**
   * The pair a Replacer applies at the start of `s`: the first one, in
   * argument order, whose old string is a prefix of `s`.
   */
  function MatchAt(pairs: seq<Pair>, s: ByteString): (r: Option<nat>)
    ensures r.Some? ==> r.value < |pairs| && pairs[r.value].pattern <= s
    ensures r.Some? ==> forall j :: 0 <= j < r.value ==> !(pairs[j].pattern <= s)
    ensures r.None? ==> forall j :: 0 <= j < |pairs| ==> !(pairs[j].pattern <= s)
  {
    if pairs == [] then None
    else if pairs[0].pattern <= s then Some(0)
    else match MatchAt(pairs[1..], s)
      case Some(j) => Some(j + 1)
      case None => None
  }

  /**
   * Replacer.Replace: scan `s` left to right; where an old string starts,
   * emit its new string and continue after the match, otherwise copy one
   * byte. What has been emitted is never scanned again.
   */
  function Replace(pairs: seq<Pair>, s: ByteString): ByteString
    requires NonEmptyOlds(pairs)
    decreases |s|
  {
    if s == [] then []
    else match MatchAt(pairs, s)
      case Some(j) => pairs[j].replacement + Replace(pairs, s[|pairs[j].pattern|..])
      case None => [s[0]] + Replace(pairs, s[1..])
  }

  /** No old string occurs anywhere in `s`. */
  predicate NoOccurrence(pairs: seq<Pair>, s: ByteString)
  {
    forall j :: 0 <= j < |pairs| ==> !Contains(s, pairs[j].pattern)
  }

  /** A string in which no old string occurs is copied verbatim. */
  lemma {:induction false} ReplaceNoOccurrence(pairs: seq<Pair>, s: ByteString)
    requires NonEmptyOlds(pairs)
    requires NoOccurrence(pairs, s)
    ensures Replace(pairs, s) == s
    decreases |s|
  {
    if s != [] {
      ReplaceNoOccurrence(pairs, s[1..]);
    }
  }

  // ---------------------------------------------------------------------
  // processUncoverOutput
  // ---------------------------------------------------------------------

  /** The fields of an uncover result that the output format can name. */
  datatype UncoverResult = UncoverResult(ip: ByteString, port: I64, host: ByteString, url: ByteString)

  function TokenIP(): ByteString { [105, 112] }             // "ip"
  function TokenHost(): ByteString { [104, 111, 115, 116] } // "host"
  function TokenPort(): ByteString { [112, 111, 114, 116] } // "port"
  function TokenURL(): ByteString { [117, 114, 108] }       // "url"

  /** The replacer pairs, in argument order: ip, host, port, url. */
  function Bindings(result: UncoverResult): (r: seq<Pair>)
    ensures NonEmptyOlds(r)
  {
    [ Pair(TokenIP(), result.ip),
      Pair(TokenHost(), result.host),
      Pair(TokenPort(), Sprint(Int(result.port))),
      Pair(TokenURL(), result.url) ]
  }

  /** "port" is replaced by the canonical decimal text of the port number. */
  lemma BindingsPort(result: UncoverResult)
    ensures |Bindings(result)| == 4
    ensures Bindings(result)[2] == Pair(TokenPort(), Decimal(result.port))
  {
  }

  /** The result lacks an address or a port. */
  predicate MissingAddress(result: UncoverResult)
  {
    result.ip == [] || result.port == 0
  }

  /** The format names the address or the port somewhere. */
  predicate NamesAddress(outputFormat: ByteString)
  {
    Contains(outputFormat, TokenIP()) || Contains(outputFormat, TokenPort())
  }

  /**
   * processUncoverOutput: the output format with ip, host, port and url
   * substituted; when the result lacks an address or a port and the format
   * mentions "ip" or "port" anywhere, the output is the host alone.
   */
  function ProcessUncoverOutput(result: UncoverResult, outputFormat: ByteString): (r: ByteString)
    ensures MissingAddress(result) && NamesAddress(outputFormat) ==> r == result.host
    ensures !(MissingAddress(result) && NamesAddress(outputFormat)) && NoOccurrence(Bindings(result), outputFormat)
            ==> r == outputFormat
  {
    var format := if MissingAddress(result) && NamesAddress(outputFormat) then TokenHost() else outputFormat;
    ReplaceFormat(result, format);
    Replace(Bindings(result), format)
  }

  /** The two formats whose replacement is known outright: "host" and a format with no token. */
  lemma ReplaceFormat(result: UncoverResult, format: ByteString)
    ensures format == TokenHost() ==> Replace(Bindings(result), format) == result.host
    ensures NoOccurrence(Bindings(result), format) ==> Replace(Bindings(result), format) == format
  {
    if format == TokenHost() {
      HostOnly(result);
    }
    if NoOccurrence(Bindings(result), format) {
      ReplaceNoOccurrence(Bindings(result), format);
    }
  }

  /** The format "host" is replaced by the host, whatever the host holds. */
  lemma HostOnly(result: UncoverResult)
    ensures Replace(Bindings(result), TokenHost()) == result.host
  {
    var pairs := Bindings(result);
    assert TokenIP()[0] != TokenHost()[0];
    assert MatchAt(pairs[1..], TokenHost()) == Some(0);
    assert MatchAt(pairs, TokenHost()) == Some(1);
    assert TokenHost()[4..] == [];
    assert result.host + [] == result.host;
  }

  /** Each of the four tokens, at the start of the remaining format, is the one the replacer matches. */
  lemma TokenMatches(result: UncoverResult, j: nat, rest: ByteString)
    requires j < 4
    ensures MatchAt(Bindings(result), Bindings(result)[j].pattern + rest) == Some(j)
  {
    var pairs := Bindings(result);
    var s := pairs[j].pattern + rest;
    assert s[0] == pairs[j].pattern[0];
    assert pairs[j].pattern <= s;
  }

  /**
   * A token is replaced by its field and scanning resumes after the token:
   * the substituted text is never rescanned, so a host holding "url" or
   * "port" appears literally.
   */
  lemma {:induction false} ReplaceToken(result: UncoverResult, j: nat, rest: ByteString)
    requires j < 4
    ensures Replace(Bindings(result), Bindings(result)[j].pattern + rest)
            == Bindings(result)[j].replacement + Replace(Bindings(result), rest)
  {
    var pairs := Bindings(result);
    TokenMatches(result, j, rest);
    assert (pairs[j].pattern + rest)[|pairs[j].pattern|..] == rest;
  }

  /** A byte that starts no token is copied verbatim and scanning moves on by one byte. */
  lemma {:induction false} ReplaceOtherByte(result: UncoverResult, b: Byte, rest: ByteString)
    requires MatchAt(Bindings(result), [b] + rest).None?
    ensures Replace(Bindings(result), [b] + rest) == [b] + Replace(Bindings(result), rest)
  {
    assert ([b] + rest)[1..] == rest;
  }

  // ---------------------------------------------------------------------
  // Query grouping (GetUncoverTargetsFromMetadata)
  // ---------------------------------------------------------------------

  /** A template's metadata: any values under string keys. */
  type Metadata = map<ByteString, Dynamic>

  function QuerySuffix(): ByteString { [45, 113, 117, 101, 114, 121] } // "-query"

  /** A metadata value's queries: one per element of a list, else the value itself, each fmt.Sprint-ed. */
  function Contribution(v: Dynamic): (r: seq<ByteString>)
    ensures v.List? ==> |r| == |v.elems| && forall i :: 0 <= i < |r| ==> r[i] == Sprint(v.elems[i])
    ensures !v.List? ==> r == [Sprint(v)]
  {
    match v
    case List(vs) => seq(|vs|, i requires 0 <= i < |vs| => Sprint(vs[i]))
    case _ => [Sprint(v)]
  }

  /** The engines named by one template's query keys. */
  function EnginesOfKeys(keys: set<ByteString>): set<ByteString>
  {
    set k | k in keys && HasSuffix(k, QuerySuffix()) :: TrimSuffix(k, QuerySuffix())
  }

  /** The engines named by the query keys of any of the templates. */
  function Engines(ts: seq<Metadata>): set<ByteString>
  {
    if ts == [] then {} else Engines(ts[..|ts| - 1]) + EnginesOfKeys(ts[|ts| - 1].Keys)
  }

  /** The queries for `engine`, template by template in order, before deduplication. */
  function EngineQueries(ts: seq<Metadata>, engine: ByteString): seq<ByteString>
  {
    if ts == [] then []
    else
      var t := ts[|ts| - 1];
      EngineQueries(ts[..|ts| - 1], engine)
        + (if engine + QuerySuffix() in t then Contribution(t[engine + QuerySuffix()]) else [])
  }

  /** A key names engine `e` exactly when it is `e` followed by "-query". */
  lemma EngineOfKey(keys: set<ByteString>, e: ByteString)
    ensures e in EnginesOfKeys(keys) <==> e + QuerySuffix() in keys
  {
    TrimSuffixOfAppend(e, QuerySuffix());
    if e in EnginesOfKeys(keys) {
      var k :| k in keys && HasSuffix(k, QuerySuffix()) && TrimSuffix(k, QuerySuffix()) == e;
      assert k == e + QuerySuffix();
    }
  }

  /**
   * Only keys ending in "-query" contribute, and the engine is the key
   * without that suffix: `e` is an engine exactly when some template has the
   * key `e` + "-query".
   */
  lemma {:induction false} EnginesExactly(ts: seq<Metadata>, e: ByteString)
    ensures e in Engines(ts) <==> exists i :: 0 <= i < |ts| && e + QuerySuffix() in ts[i]
  {
    if ts != [] {
      var init := ts[..|ts| - 1];
      EnginesExactly(init, e);
      EngineOfKey(ts[|ts| - 1].Keys, e);
      if exists i :: 0 <= i < |ts| && e + QuerySuffix() in ts[i] {
        var i :| 0 <= i < |ts| && e + QuerySuffix() in ts[i];
        if i < |ts| - 1 { assert init[i] == ts[i]; }
      }
      if exists i :: 0 <= i < |init| && e + QuerySuffix() in init[i] {
        var i :| 0 <= i < |init| && e + QuerySuffix() in init[i];
        assert ts[i] == init[i];
      }
    }
  }

  /** An engine no template names has no queries. */
  lemma {:induction false} EngineQueriesOutside(ts: seq<Metadata>, e: ByteString)
    requires e !in Engines(ts)
    ensures EngineQueries(ts, e) == []
  {
    if ts != [] {
      EngineQueriesOutside(ts[..|ts| - 1], e);
      EngineOfKey(ts[|ts| - 1].Keys, e);
    }
  }

  /**
   * The query map as the first loop leaves it: for every engine, its queries
   * in template order.
   */
  function Grouped(ts: seq<Metadata>): map<ByteString, seq<ByteString>>
  {
    map e | e in Engines(ts) :: EngineQueries(ts, e)
  }

  /** The queries of one metadata value appended to `qs`, as the type switch does. */
  method AppendQueries(qs: seq<ByteString>, v: Dynamic) returns (r: seq<ByteString>)
    ensures r == qs + Contribution(v)
  {
    if v.List? {
      var vs := v.elems;
      ghost var c := Contribution(v);
      r := qs;
      for i := 0 to |vs|
        invariant r == qs + c[..i]
      {
        assert c[..i + 1] == c[..i] + [Sprint(vs[i])];
        r := r + [Sprint(vs[i])];
      }
      assert c[..|vs|] == c;
    } else {
      r := qs + [Sprint(v)];
    }
  }

  /** After `done` of template `t`'s keys: the queries of engine `e` so far. */
  function PartialQueries(init: seq<Metadata>, t: Metadata, done: set<ByteString>, e: ByteString): seq<ByteString>
  {
    EngineQueries(init, e) + (if e + QuerySuffix() in done && e + QuerySuffix() in t then Contribution(t[e + QuerySuffix()]) else [])
  }

  /** After `done` of template `t`'s keys: the partial query map. */
  function Partial(init: seq<Metadata>, t: Metadata, done: set<ByteString>): map<ByteString, seq<ByteString>>
  {
    map e | e in Engines(init) + EnginesOfKeys(done) :: PartialQueries(init, t, done, e)
  }

  /** Before any key of the template: the map of the templates before it. */
  lemma PartialEmpty(init: seq<Metadata>, t: Metadata)
    ensures Partial(init, t, {}) == Grouped(init)
  {
    assert EnginesOfKeys({}) == {};
    assert Engines(init) + EnginesOfKeys({}) == Engines(init);
    forall e ensures PartialQueries(init, t, {}, e) == EngineQueries(init, e) {
      assert EngineQueries(init, e) + [] == EngineQueries(init, e);
    }
  }

  /** The grouping loop over the templates with every key visited. */
  lemma PartialComplete(ts: seq<Metadata>, i: nat)
    requires i < |ts|
    ensures Partial(ts[..i], ts[i], ts[i].Keys) == Grouped(ts[..i + 1])
  {
    var ts' := ts[..i + 1];
    assert ts'[..|ts'| - 1] == ts[..i];
    assert ts'[|ts'| - 1] == ts[i];
  }

  /** A key without the suffix changes neither the engines nor their queries. */
  lemma PartialOtherKey(init: seq<Metadata>, t: Metadata, done: set<ByteString>, k: ByteString)
    requires k in t && k !in done && !HasSuffix(k, QuerySuffix())
    ensures Partial(init, t, done + {k}) == Partial(init, t, done)
  {
    forall e ensures (e + QuerySuffix() in done + {k}) == (e + QuerySuffix() in done) {
      TrimSuffixOfAppend(e, QuerySuffix());
    }
    forall e ensures e in EnginesOfKeys(done + {k}) <==> e in EnginesOfKeys(done) {
      EngineOfKey(done + {k}, e);
      EngineOfKey(done, e);
    }
    assert EnginesOfKeys(done + {k}) == EnginesOfKeys(done);
  }

  /** Adding the key `e` + "-query" adds exactly the engine `e`. */
  lemma EnginesOfKeysAdd(done: set<ByteString>, k: ByteString, e: ByteString)
    requires k == e + QuerySuffix()
    ensures EnginesOfKeys(done + {k}) == EnginesOfKeys(done) + {e}
  {
    forall x ensures x in EnginesOfKeys(done + {k}) <==> x in EnginesOfKeys(done) || x == e {
      EngineOfKey(done + {k}, x);
      EngineOfKey(done, x);
      if x != e { AppendSuffixInjective(x, e, QuerySuffix()); }
    }
  }

  /** The engine of the key gains the key's queries. */
  lemma PartialQueryKeyOwn(init: seq<Metadata>, t: Metadata, done: set<ByteString>, k: ByteString, e: ByteString)
    requires k in t && k !in done && k == e + QuerySuffix()
    ensures PartialQueries(init, t, done + {k}, e)
            == (if e in Partial(init, t, done) then Partial(init, t, done)[e] else []) + Contribution(t[k])
  {
    EngineOfKey(done, e);
    if e !in Partial(init, t, done) { EngineQueriesOutside(init, e); }
    assert PartialQueries(init, t, done, e) == EngineQueries(init, e) + [];
  }

  /** Every other engine keeps its queries. */
  lemma PartialQueryKeyOthers(init: seq<Metadata>, t: Metadata, done: set<ByteString>, k: ByteString, e: ByteString, x: ByteString)
    requires k in t && k !in done && k == e + QuerySuffix() && x != e
    ensures PartialQueries(init, t, done + {k}, x) == PartialQueries(init, t, done, x)
  {
    AppendSuffixInjective(x, e, QuerySuffix());
  }

  /** A key `e` + "-query" appends its value's queries to engine `e`, creating it if need be. */
  lemma PartialQueryKey(init: seq<Metadata>, t: Metadata, done: set<ByteString>, k: ByteString, e: ByteString)
    requires k in t && k !in done && k == e + QuerySuffix()
    ensures var m := Partial(init, t, done);
      Partial(init, t, done + {k}) == m[e := (if e in m then m[e] else []) + Contribution(t[k])]
  {
    var m := Partial(init, t, done);
    var m' := Partial(init, t, done + {k});
    var v := (if e in m then m[e] else []) + Contribution(t[k]);
    var n := m[e := v];
    EnginesOfKeysAdd(done, k, e);
    assert m'.Keys == n.Keys;
    forall x | x in m' ensures m'[x] == n[x] {
      if x == e {
        PartialQueryKeyOwn(init, t, done, k, e);
      } else {
        PartialQueryKeyOthers(init, t, done, k, e, x);
      }
    }
  }

  lemma AppendSuffixInjective(x: ByteString, e: ByteString, suffix: ByteString)
    requires x != e
    ensures x + suffix != e + suffix
  {
    if x + suffix == e + suffix {
      TrimSuffixOfAppend(x, suffix);
      TrimSuffixOfAppend(e, suffix);
    }
  }

  /** The engine's queries with repeats removed (sliceutil.Dedupe): first occurrences, in order. */
  function Dedupe(s: seq<ByteString>): (r: seq<ByteString>)
    ensures NoDuplicates(r)
    ensures forall x :: x in r <==> x in s
  {
    DedupeAfter(s, {})
  }

  predicate NoDuplicates(s: seq<ByteString>)
  {
    forall i, j :: 0 <= i < j < |s| ==> s[i] != s[j]
  }

  /** The first occurrences in `s` of the elements not yet `seen`. */
  function DedupeAfter(s: seq<ByteString>, seen: set<ByteString>): (r: seq<ByteString>)
    ensures NoDuplicates(r)
    ensures forall x :: x in r <==> x in s && x !in seen
    decreases |s|
  {
    if s == [] then []
    else if s[0] in seen then DedupeAfter(s[1..], seen)
    else [s[0]] + DedupeAfter(s[1..], seen + {s[0]})
  }

  /** The inner loop: add one template's query keys, in whatever order Go visits them. */
  method AddTemplateQueries(queriesMap: map<ByteString, seq<ByteString>>, ghost init: seq<Metadata>, t: Metadata)
    returns (r: map<ByteString, seq<ByteString>>)
    requires queriesMap == Grouped(init)
    ensures r == Partial(init, t, t.Keys)
  {
    r := queriesMap;
    var rest := t.Keys;
    assert t.Keys - rest == {};
    PartialEmpty(init, t);
    while rest != {}
      invariant rest <= t.Keys
      invariant r == Partial(init, t, t.Keys - rest)
      decreases rest
    {
      var k :| k in rest;
      ghost var done := t.Keys - rest;
      DoneStep(t.Keys, rest, k);
      rest := rest - {k};
      if !HasSuffix(k, QuerySuffix()) {
        PartialOtherKey(init, t, done, k);
        continue;
      }
      var engine := TrimSuffix(k, QuerySuffix());
      PartialQueryKey(init, t, done, k, engine);
      var qs := if engine in r then r[engine] else [];
      qs := AppendQueries(qs, t[k]);
      r := r[engine := qs];
    }
  }

  /** Visiting one more key of the template. */
  lemma DoneStep(keys: set<ByteString>, rest: set<ByteString>, k: ByteString)
    requires k in rest && rest <= keys
    ensures (keys - rest) + {k} == keys - (rest - {k}) && k !in keys - rest
  {
  }

  /** The second loop: every engine's list replaced by its deduplicated form. */
  method DedupeEach(grouped: map<ByteString, seq<ByteString>>) returns (queriesMap: map<ByteString, seq<ByteString>>)
    ensures queriesMap.Keys == grouped.Keys
    ensures forall e :: e in queriesMap ==> queriesMap[e] == Dedupe(grouped[e])
  {
    queriesMap := grouped;
    var engines := queriesMap.Keys;
    while engines != {}
      invariant engines <= grouped.Keys
      invariant queriesMap.Keys == grouped.Keys
      invariant forall e :: e in queriesMap ==> queriesMap[e] == if e in engines then grouped[e] else Dedupe(grouped[e])
      decreases engines
    {
      var engine :| engine in engines;
      queriesMap := queriesMap[engine := Dedupe(queriesMap[engine])];
      engines := engines - {engine};
    }
  }

  /**
   * The query map of GetUncoverTargetsFromMetadata: for every engine named
   * by a "-query" key of any template, its queries in template order with
   * repeats removed. Go visits each metadata map, and finally the query map,
   * in an unspecified order; the result is the same for every order.
   */
  method GroupQueries(templates: seq<Metadata>) returns (queriesMap: map<ByteString, seq<ByteString>>)
    ensures queriesMap.Keys == Engines(templates)
    ensures forall e :: e in queriesMap ==> queriesMap[e] == Dedupe(EngineQueries(templates, e))
    ensures forall e :: e in queriesMap ==> NoDuplicates(queriesMap[e])
    ensures forall e, q :: e in queriesMap ==> (q in queriesMap[e] <==> q in EngineQueries(templates, e))
  {
    queriesMap := map[];
    for i := 0 to |templates|
      invariant queriesMap == Grouped(templates[..i])
    {
      queriesMap := AddTemplateQueries(queriesMap, templates[..i], templates[i]);
      PartialComplete(templates, i);
    }
    assert templates[..|templates|] == templates;
    queriesMap := DedupeEach(queriesMap);
  }
}

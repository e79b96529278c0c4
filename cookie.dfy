/**
 * The cookie fuzz component of pkg/fuzz/component/cookie.go: a request's
 * cookies parsed into an insertion-ordered map that a fuzzing driver
 * iterates (skipping tracking and session cookies), mutates entry by entry,
 * and turns back into a new request.
 */
module Component {
  import opened Wrappers
  import opened OrderedMap

  /** The identifier of the cookie component. */
  const RequestCookieComponent: string := "cookie"

  /** The names Iterate never offers for fuzzing: load-balancer, analytics, tracking and session cookies. */
  const DefaultIgnoredCookieKeys: set<string> := {
    "awsELB", "AWSALB", "AWSALBCORS",
    "__utma", "__utmb", "__utmc", "__utmt", "__utmz",
    "_ga", "_gat", "_gid", "_gcl_au",
    "_fbp", "fr",
    "__hstc", "hubspotutk", "__hssc", "__hssrc",
    "mp_mixpanel__c",
    "JSESSIONID",
    "NREUM",
    "_pk_id", "_pk_ref", "_pk_ses", "_pk_cvar", "_pk_hsr",
    "_hjIncludedInSample",
    "__cfduid", "cf_use_ob", "cf_ob_info",
    "intercom-session",
    "optimizelyEndUserId", "optimizelySegments", "optimizelyBuckets", "optimizelyPendingLogEvents",
    "YSC", "VISITOR_INFO1_LIVE", "PREF", "GPS"
  }

  /** A cookie as the transport layer has already split it. */
  datatype HttpCookie = HttpCookie(name: string, value: string)

  /** A header other than Cookie. */
  datatype Header = Header(name: string, value: string)

  /** A captured request: its cookie list and everything else it carries. */
  datatype Request = Request(url: string, headers: seq<Header>, cookies: seq<HttpCookie>, body: string)

  /** The errors a mutation reports. */
  datatype ComponentError = ErrSetValue | ErrKeyNotFound

  // ---------------------------------------------------------------------
  // Specification functions
  // ---------------------------------------------------------------------

  /** The ordered map Parse builds: each cookie Set in request order. */
  function BuildEntries(cs: seq<HttpCookie>): (r: Entries)
    ensures UniqueKeys(r)
    ensures cs != [] ==> r != []
  {
    if cs == [] then []
    else
      var last := cs[|cs| - 1];
      var init := BuildEntries(cs[..|cs| - 1]);
      Set(init, last.name, last.value)
  }

  /** The cookie names in request order. */
  function Names(cs: seq<HttpCookie>): (r: seq<string>)
    ensures |r| == |cs| && forall i :: 0 <= i < |cs| ==> r[i] == cs[i].name
  {
    seq(|cs|, i requires 0 <= i < |cs| => cs[i].name)
  }

  /** The distinct names, each at its first occurrence. */
  function FirstOccurrences(ns: seq<string>): (r: seq<string>)
    ensures forall x :: x in r <==> x in ns
  {
    if ns == [] then []
    else
      var init := FirstOccurrences(ns[..|ns| - 1]);
      if ns[|ns| - 1] in ns[..|ns| - 1] then init else init + [ns[|ns| - 1]]
  }

  /** The value of the last cookie named `n`. */
  function LastValue(cs: seq<HttpCookie>, n: string): Option<string>
  {
    if cs == [] then None
    else if cs[|cs| - 1].name == n then Some(cs[|cs| - 1].value)
    else LastValue(cs[..|cs| - 1], n)
  }

  /** The map holds exactly the request's cookie names, in first-occurrence order. */
  lemma {:induction false} BuildEntriesKeys(cs: seq<HttpCookie>)
    ensures Keys(BuildEntries(cs)) == FirstOccurrences(Names(cs))
  {
    if cs != [] {
      var init := cs[..|cs| - 1];
      BuildEntriesKeys(init);
      assert Names(cs)[..|cs| - 1] == Names(init);
    }
  }

  /** For a repeated name the last value wins. */
  lemma {:induction false} BuildEntriesLastWins(cs: seq<HttpCookie>, n: string)
    ensures Get(BuildEntries(cs), n) == LastValue(cs, n)
  {
    if cs != [] {
      var last := cs[|cs| - 1];
      BuildEntriesLastWins(cs[..|cs| - 1], n);
      SetGet(BuildEntries(cs[..|cs| - 1]), last.name, last.value);
    }
  }

  /** The entries not in the ignored-cookie table, in map order. */
  function Fuzzable(es: Entries): Entries
  {
    if es == [] then []
    else
      var last := es[|es| - 1];
      Fuzzable(es[..|es| - 1]) + (if last.key in DefaultIgnoredCookieKeys then [] else [last])
  }

  /** Exactly the entries whose key is not in the table are fuzzable. */
  lemma {:induction false} FuzzableMembers(es: Entries)
    ensures forall e :: e in Fuzzable(es) <==> e in es && e.key !in DefaultIgnoredCookieKeys
  {
    if es != [] {
      var init := es[..|es| - 1];
      FuzzableMembers(init);
      assert es == init + [es[|es| - 1]];
    }
  }

  /** One more entry of the map: it is fuzzable unless its key is in the table. */
  lemma FuzzableSnoc(es: Entries, i: nat)
    requires i < |es|
    ensures Fuzzable(es[..i + 1]) == Fuzzable(es[..i]) + (if es[i].key in DefaultIgnoredCookieKeys then [] else [es[i]])
  {
    var p := es[..i + 1];
    assert p[..|p| - 1] == es[..i];
    assert p[|p| - 1] == es[i];
  }

  /** Iterating further only extends what has been visited. */
  lemma {:induction false} FuzzablePrefix(es: Entries, i: nat, j: nat)
    requires i <= j <= |es|
    ensures Fuzzable(es[..i]) <= Fuzzable(es[..j])
    decreases j - i
  {
    if i < j {
      FuzzablePrefix(es, i, j - 1);
      FuzzableSnoc(es, j - 1);
    }
  }

  /** The cookies Rebuild adds: one per entry, in order, ignored keys included. */
  function AsCookies(es: Entries): (r: seq<HttpCookie>)
    ensures |r| == |es| && forall i :: 0 <= i < |es| ==> r[i] == HttpCookie(es[i].key, es[i].value)
  {
    seq(|es|, i requires 0 <= i < |es| => HttpCookie(es[i].key, es[i].value))
  }

  /** Parsing one more cookie sets it over what the earlier ones built. */
  lemma BuildEntriesSnoc(cs: seq<HttpCookie>, i: nat)
    requires i < |cs|
    ensures BuildEntries(cs[..i + 1]) == Set(BuildEntries(cs[..i]), cs[i].name, cs[i].value)
  {
    var p := cs[..i + 1];
    assert p[..|p| - 1] == cs[..i];
    assert p[|p| - 1] == cs[i];
  }

  /** Under unique keys the last key does not occur before it. */
  lemma LastKeyFresh(es: Entries)
    requires es != [] && UniqueKeys(es)
    ensures es[|es| - 1].key !in Keys(es[..|es| - 1])
  {
    var init := es[..|es| - 1];
    var ks := Keys(init);
    forall j | 0 <= j < |ks| ensures ks[j] != es[|es| - 1].key {
      assert ks[j] == es[j].key;
    }
  }

  /** Parsing the cookies of a rebuilt request gives back the map it was rebuilt from. */
  lemma {:induction false} RebuildRoundTrip(es: Entries)
    requires UniqueKeys(es)
    ensures BuildEntries(AsCookies(es)) == es
  {
    if es != [] {
      var n := |es| - 1;
      var cs := AsCookies(es);
      var init := es[..n];
      assert cs[..n] == AsCookies(init);
      assert cs[..n + 1] == cs;
      assert UniqueKeys(init);
      RebuildRoundTrip(init);
      BuildEntriesSnoc(cs, n);
      LastKeyFresh(es);
      assert cs[n] == HttpCookie(es[n].key, es[n].value);
      assert init + [Entry(es[n].key, es[n].value)] == es;
    }
  }

  // ---------------------------------------------------------------------
  // The component
  // ---------------------------------------------------------------------

  /** The cookie component: unparsed until a Parse succeeds, then mutable in place. */
  class Cookie {
    /** The parsed cookie map of the component's value; None until a Parse succeeds. */
    var parsed: Option<Entries>
    /** The request the cookies were parsed from; None until a Parse succeeds. */
    var req: Option<Request>

    ghost predicate Valid()
      reads this
    {
      (parsed.Some? <==> req.Some?) && (parsed.Some? ==> UniqueKeys(parsed.value))
    }

    /** A Parse has succeeded; every other operation needs this. */
    predicate Parsed()
      reads this
    {
      parsed.Some? && req.Some?
    }

    /** NewCookie: a component that has parsed nothing. */
    constructor ()
      ensures Valid() && !Parsed()
      ensures parsed == None && req == None
    {
      parsed := None;
      req := None;
    }

    /** A component holding the given state, as Clone builds it. */
    constructor Of(parsed: Option<Entries>, req: Option<Request>)
      requires parsed.Some? <==> req.Some?
      requires parsed.Some? ==> UniqueKeys(parsed.value)
      ensures Valid()
      ensures this.parsed == parsed && this.req == req
    {
      this.parsed := parsed;
      this.req := req;
    }

    /** Name: the component is always called "cookie". */
    function Name(): (r: string)
      ensures r == "cookie"
    {
      RequestCookieComponent
    }

    /**
     * Parse: a request without cookies is reported absent and leaves the
     * component as it was; otherwise the component takes the request and a
     * map of its cookies, set one by one in request order. Never an error.
     */
    method Parse(r: Request) returns (present: bool, err: Option<ComponentError>)
      requires Valid()
      modifies this
      ensures Valid() && err.None?
      ensures present <==> r.cookies != []
      ensures present ==> Parsed() && req == Some(r) && parsed == Some(BuildEntries(r.cookies))
      ensures !present ==> parsed == old(parsed) && req == old(req)
    {
      if |r.cookies| == 0 {
        return false, None;
      }
      req := Some(r);
      var parsedCookies: Entries := [];
      for i := 0 to |r.cookies|
        invariant parsedCookies == BuildEntries(r.cookies[..i])
      {
        assert r.cookies[..i + 1][..i] == r.cookies[..i];
        parsedCookies := Set(parsedCookies, r.cookies[i].name, r.cookies[i].value);
      }
      assert r.cookies[..|r.cookies|] == r.cookies;
      // BuildEntries of a nonempty list is nonempty, so the source's
      // second emptiness check cannot fire.
      parsed := Some(parsedCookies);
      return true, None;
    }

    /**
     * Iterate: the non-ignored entries are passed to `callback` in map
     * order, ignored ones skipped without stopping; the first error the
     * callback returns ends the iteration and is returned. `visited` records
     * the entries the callback was called with.
     */
    method Iterate<E>(callback: (string, string) -> Option<E>) returns (err: Option<E>, visited: Entries)
      requires Parsed()
      ensures visited <= Fuzzable(parsed.value)
      ensures forall j :: 0 <= j < |visited| - 1 ==> callback(visited[j].key, visited[j].value).None?
      ensures err.None? ==> visited == Fuzzable(parsed.value)
      ensures err.None? ==> forall j :: 0 <= j < |visited| ==> callback(visited[j].key, visited[j].value).None?
      ensures err.Some? ==> visited != [] && err == callback(visited[|visited| - 1].key, visited[|visited| - 1].value)
    {
      var es := parsed.value;
      err, visited := None, [];
      var i := 0;
      while i < |es|
        invariant 0 <= i <= |es|
        invariant visited == Fuzzable(es[..i])
        invariant forall j :: 0 <= j < |visited| ==> callback(visited[j].key, visited[j].value).None?
      {
        var e := es[i];
        FuzzableSnoc(es, i);
        if e.key in DefaultIgnoredCookieKeys {
          i := i + 1;
          continue;
        }
        visited := visited + [e];
        var errx := callback(e.key, e.value);
        if errx.Some? {
          FuzzablePrefix(es, i + 1, |es|);
          assert es[..|es|] == es;
          return errx, visited;
        }
        i := i + 1;
      }
      assert es[..|es|] == es;
    }

    /** Value.SetParsedValue: set an existing key in place; report whether it existed. */
    method SetParsedValue(key: string, value: string) returns (ok: bool)
      requires Valid() && Parsed()
      modifies this
      ensures Valid() && Parsed() && req == old(req)
      ensures ok <==> key in Keys(old(parsed).value)
      ensures parsed == if ok then Some(Set(old(parsed).value, key, value)) else old(parsed)
    {
      ok := key in Keys(parsed.value);
      if ok {
        parsed := Some(Set(parsed.value, key, value));
      }
    }

    /** Value.Delete: remove a key; report whether it existed. */
    method DeleteParsed(key: string) returns (ok: bool)
      requires Valid() && Parsed()
      modifies this
      ensures Valid() && Parsed() && req == old(req)
      ensures ok <==> key in Keys(old(parsed).value)
      ensures parsed == if ok then Some(OrderedMap.Delete(old(parsed).value, key)) else old(parsed)
    {
      ok := key in Keys(parsed.value);
      if ok {
        parsed := Some(OrderedMap.Delete(parsed.value, key));
      }
    }

    /**
     * SetValue: ErrSetValue exactly when the key is not in the map;
     * otherwise the key takes the new value in its own position. The
     * ignored-cookie table is not consulted.
     */
    method SetValue(key: string, value: string) returns (err: Option<ComponentError>)
      requires Valid() && Parsed()
      modifies this
      ensures Valid() && Parsed() && req == old(req)
      ensures err.None? <==> key in Keys(old(parsed).value)
      ensures err.Some? ==> err.value == ErrSetValue && parsed == old(parsed)
      ensures err.None? ==> parsed == Some(Set(old(parsed).value, key, value))
    {
      var ok := SetParsedValue(key, value);
      if !ok {
        return Some(ErrSetValue);
      }
      return None;
    }

    /**
     * Delete: ErrKeyNotFound exactly when the key is not in the map;
     * otherwise its entry is removed and the others keep their order. The
     * ignored-cookie table is not consulted.
     */
    method Delete(key: string) returns (err: Option<ComponentError>)
      requires Valid() && Parsed()
      modifies this
      ensures Valid() && Parsed() && req == old(req)
      ensures err.None? <==> key in Keys(old(parsed).value)
      ensures err.Some? ==> err.value == ErrKeyNotFound && parsed == old(parsed)
      ensures err.None? ==> parsed == Some(OrderedMap.Delete(old(parsed).value, key))
    {
      var ok := DeleteParsed(key);
      if !ok {
        return Some(ErrKeyNotFound);
      }
      return None;
    }

    /**
     * Rebuild: a copy of the stored request whose cookies are exactly the
     * current map entries, in order and ignored keys included; the stored
     * request is not changed and the error is always nil.
     */
    method Rebuild() returns (r: Request, err: Option<ComponentError>)
      requires Valid() && Parsed()
      ensures err.None?
      ensures r == req.value.(cookies := AsCookies(parsed.value))
    {
      var cloned := req.value;
      cloned := cloned.(cookies := []);
      var es := parsed.value;
      for i := 0 to |es|
        invariant cloned == req.value.(cookies := AsCookies(es[..i]))
      {
        assert AsCookies(es[..i + 1]) == AsCookies(es[..i]) + [HttpCookie(es[i].key, es[i].value)];
        cloned := cloned.(cookies := cloned.cookies + [HttpCookie(es[i].key, es[i].value)]);
      }
      assert es[..|es|] == es;
      return cloned, None;
    }

    /** Clone: a new component with its own copy of the map and of the request. */
    method Clone() returns (c: Cookie)
      requires Valid() && Parsed()
      ensures fresh(c) && c.Valid() && c.Parsed()
      ensures c.parsed == parsed && c.req == req
    {
      c := new Cookie.Of(parsed, req);
    }
  }

  // ---------------------------------------------------------------------
  // Laws a driver relies on
  // ---------------------------------------------------------------------

  /** Rebuilding twice without a mutation in between gives the same request. */
  method RebuildTwice(c: Cookie) returns (first: Request, second: Request)
    requires c.Valid() && c.Parsed()
    ensures first == second
    ensures first.cookies == AsCookies(c.parsed.value)
  {
    var err;
    first, err := c.Rebuild();
    second, err := c.Rebuild();
  }

  /** Mutating a clone leaves the original's map and request as they were. */
  method MutateClone(c: Cookie, key: string, value: string) returns (d: Cookie, err: Option<ComponentError>)
    requires c.Valid() && c.Parsed()
    ensures fresh(d) && d.Valid() && d.Parsed()
    ensures c.parsed == old(c.parsed) && c.req == old(c.req)
    ensures d.req == c.req
    ensures err.None? <==> key in Keys(c.parsed.value)
    ensures d.parsed == if err.None? then Some(Set(c.parsed.value, key, value)) else c.parsed
  {
    d := c.Clone();
    err := d.SetValue(key, value);
  }

  /** Mutating the original after a Clone leaves the clone as it was. */
  method MutateOriginal(c: Cookie, key: string) returns (d: Cookie, err: Option<ComponentError>)
    requires c.Valid() && c.Parsed()
    modifies c
    ensures fresh(d) && d.Valid()
    ensures d.parsed == old(c.parsed) && d.req == old(c.req)
    ensures err.None? <==> key in Keys(old(c.parsed).value)
    ensures c.parsed == if err.None? then Some(OrderedMap.Delete(old(c.parsed).value, key)) else old(c.parsed)
  {
    d := c.Clone();
    err := c.Delete(key);
  }

  // A request carrying a tracking cookie between two others.

  function ScenarioCookies(): seq<HttpCookie>
  {
    [HttpCookie("session", "abc123"), HttpCookie("__utma", "111.222"), HttpCookie("theme", "dark")]
  }

  function ScenarioEntries(): Entries
  {
    [Entry("session", "abc123"), Entry("__utma", "111.222"), Entry("theme", "dark")]
  }

  lemma ScenarioParsed()
    ensures BuildEntries(ScenarioCookies()) == ScenarioEntries()
  {
    var es := ScenarioEntries();
    assert UniqueKeys(es) by {
      assert es[0].key != es[1].key && es[0].key != es[2].key && es[1].key != es[2].key;
    }
    assert AsCookies(es) == ScenarioCookies();
    RebuildRoundTrip(es);
  }

  lemma ScenarioFuzzable()
    ensures Fuzzable(ScenarioEntries()) == [Entry("session", "abc123"), Entry("theme", "dark")]
  {
    var es := ScenarioEntries();
    assert "session" !in DefaultIgnoredCookieKeys;
    assert "__utma" in DefaultIgnoredCookieKeys;
    assert "theme" !in DefaultIgnoredCookieKeys;
    assert es[..2] == [es[0], es[1]] && es[..2][..1] == [es[0]] && es[..1][..0] == [];
    assert Fuzzable(es[..1]) == [es[0]];
    assert Fuzzable(es[..2]) == [es[0]];
  }

  lemma ScenarioSetTheme()
    ensures Set(ScenarioEntries(), "theme", "light")
            == [Entry("session", "abc123"), Entry("__utma", "111.222"), Entry("theme", "light")]
  {
    var es := ScenarioEntries();
    assert es[1..][1..] == [Entry("theme", "dark")];
    assert IndexOf(es[1..][1..], "theme") == Some(0);
    assert IndexOf(es[1..], "theme") == Some(1);
    assert IndexOf(es, "theme") == Some(2);
  }

  lemma ScenarioRebuilt()
    ensures AsCookies([Entry("session", "abc123"), Entry("__utma", "111.222"), Entry("theme", "light")])
            == [HttpCookie("session", "abc123"), HttpCookie("__utma", "111.222"), HttpCookie("theme", "light")]
  {
  }

  /** Iterating skips the tracking cookie; setting a visited key and rebuilding keeps all three, in order. */
  method TrackingCookieScenario() returns (visited: seq<string>, rebuilt: seq<HttpCookie>)
    ensures visited == ["session", "theme"]
    ensures rebuilt == [HttpCookie("session", "abc123"), HttpCookie("__utma", "111.222"), HttpCookie("theme", "light")]
  {
    var c := new Cookie();
    var present, perr := c.Parse(Request("/", [], ScenarioCookies(), ""));
    ScenarioParsed();
    assert c.parsed == Some(ScenarioEntries());
    var err, seen := c.Iterate<string>((k: string, v: string) => None);
    assert err.None?;
    ScenarioFuzzable();
    assert seen == [Entry("session", "abc123"), Entry("theme", "dark")];
    visited := [seen[0].key, seen[1].key];
    assert Keys(ScenarioEntries())[2] == "theme";
    var serr := c.SetValue("theme", "light");
    ScenarioSetTheme();
    var r, rerr := c.Rebuild();
    ScenarioRebuilt();
    rebuilt := r.cookies;
  }
}

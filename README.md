# Nuclei core pieces in Dafny

This project models three parts of the nuclei scanner and proves properties
of the models:

- **The cookie fuzz component** (`pkg/fuzz/component/cookie.go`). It parses a
  request's cookies into an insertion-ordered map. A fuzzing driver iterates
  that map, skipping a fixed table of tracking and session cookies, mutates it
  entry by entry, and rebuilds a new request from it. The component is a
  class (`Component.Cookie`) whose methods update its two fields in place.
  The ordered map it keeps (`mapsutil.OrderedMap`) is modelled on values in
  module `OrderedMap`.
- **The dynamic-value conversions** (`pkg/types/interfaces.go`). Go's
  `interface{}` becomes the datatype `Types.Dynamic`, with one constructor per
  dynamic type the code switches on. The pure conversions are functions. The
  conversions that loop are methods, each proved against a function or a
  per-case statement of its result.
- **The uncover helpers** (`pkg/protocols/common/uncover/uncover.go`).
  - `processUncoverOutput` is a function over a model of Go's
    `strings.Replacer`.
  - The grouping of template metadata queries by search engine is a method
    with nested loops. Those loops visit keys in whatever order Go's maps
    yield, and their result is proved to be the same for every order.

In `GoText`, `Types` and `Uncover`, Go strings are byte sequences,
`GoText.ByteString`. `OrderedMap` and `Component` use Dafny's `string` for
cookie names and values: they only compare, copy and store them, so their
encoding never matters. Module `GoText` holds the
parts of `strings` and `strconv` the code relies on:

- decimal formatting and an independent decimal reader;
- `strings.Fields`, `strings.Join` and `bytes.Buffer`;
- `HasSuffix`, `TrimSuffix` and substring search.

Modules: `Wrappers` (Option and Result), `GoText`, `Types`, `Uncover`,
`OrderedMap`, `Component`.

Two behaviours of the cookie component that a reader might not expect, both
taken from the code:

- `Cookie.SetValue` on a missing key reports `ErrSetValue`.
- `Cookie.Rebuild` writes every map entry back, including the ignored
  tracking cookies. Only `Iterate` skips them.

`Value` (pkg/fuzz/component/value.go) is not part of this model. The model
makes these assumptions about its operations `SetParsedValue`, `Delete` and
`Clone`, as the cookie component uses them:

- a set succeeds exactly when the key is present, and never adds a key;
- a delete succeeds exactly when the key is present;
- a clone copies the map.

## Model

| member | source | states |
|---|---|---|
| GoText.Decimal | pkg/types/interfaces.go:46-65 | the base-10 text of strconv.Itoa/FormatInt/FormatUint: a minus sign for negative values, then the digits of the magnitude; DecimalCanonical and DecimalRoundTrip state its properties |
| GoText.DecimalCanonical | pkg/types/interfaces.go:46-65 | that text is canonical: a leading minus exactly for negative values, then digits with no leading zero, so zero is "0" and never "-0" or "00" |
| GoText.Fields | pkg/types/interfaces.go:123 | strings.Fields on ASCII white space, as a recursive definition: skip leading white space, take the maximal run of non-space bytes as the next field, repeat; its properties are FieldsWords, FieldsConcat and FieldsOfJoinSpace |
| GoText.Concat | pkg/types/interfaces.go:135-143 | strings.Join with an empty separator, and the contents of a bytes.Buffer after a sequence of WriteString calls, as the separator-free concatenation; ConcatSnoc relates it to one more write |
| GoText.ConcatSnoc | pkg/types/interfaces.go:139-143 | writing one more string to the buffer appends exactly that string to the concatenation so far |
| GoText.IsASCII | pkg/types/interfaces.go:99 | govalidator.IsASCII: every byte is below 0x80, the empty string included |
| GoText.HasSuffix | pkg/protocols/common/uncover/uncover.go:79 | strings.HasSuffix: the string is at least as long as the suffix and ends with it; TrimSuffix and TrimSuffixOfAppend are stated in its terms |
| GoText.DecimalRoundTrip | pkg/types/interfaces.go:46-65 | reading back the base-10 rendering that strconv.Itoa/FormatInt/FormatUint produce gives the same integer, for every integer |
| GoText.DecimalInjective | pkg/types/interfaces.go:46-65 | distinct integers never render to the same decimal text |
| GoText.FieldsWords | pkg/types/interfaces.go:122-123 | no field produced by strings.Fields is empty or contains white space |
| GoText.FieldsConcat | pkg/types/interfaces.go:122-123 | the fields, concatenated, are exactly the non-white-space bytes of the input in order (nothing is lost, reordered or invented) |
| GoText.FieldsOfJoinSpace | pkg/types/interfaces.go:122-123 | splitting words joined by single spaces gives back those words (round trip with strings.Join) |
| GoText.TrimSuffix | pkg/protocols/common/uncover/uncover.go:84 | when the suffix is present the result followed by the suffix is the input; otherwise the input is unchanged |
| GoText.TrimSuffixOfAppend | pkg/protocols/common/uncover/uncover.go:79-84 | any string followed by the suffix has that suffix, and trimming it gives the string back |
| GoText.Contains | pkg/protocols/common/uncover/uncover.go:59 | true exactly when the substring occurs at some position |
| Types.ToString | pkg/types/interfaces.go:34-79 | nil gives the empty string; strings, byte slices, Stringers and errors give their own text; bools give "true"/"false"; every integer width gives exactly Go's canonical decimal text, which reads back as the same number |
| Types.ToStringIntegerWidths | pkg/types/interfaces.go:46-65 | two integers of any widths render to equal text exactly when their values are equal |
| Types.JSONScalarToString | pkg/types/interfaces.go:18-31 | succeeds exactly for string, float64, nil and bool, with ToString's text; every other type, integers included, fails with an error naming the value |
| Types.ToStringNSlice | pkg/types/interfaces.go:83-94 | a []interface{} becomes a []string of the same length, element i being ToString of element i; anything else becomes ToString of itself |
| Types.ToHexOrString | pkg/types/interfaces.go:96-108 | an ASCII string is returned unchanged; a non-ASCII string and a byte slice are hex-dumped |
| Types.ToStringSlice | pkg/types/interfaces.go:111-127 | a []interface{} maps element-wise through ToString; a []string is returned unchanged; a string is split with strings.Fields; any other value gives the empty list |
| Types.ToByteSlice | pkg/types/interfaces.go:130-148 | byte slices and strings are their bytes; a []string is the separator-free join; a []interface{} is the concatenation of ToString of each element in order; anything else is ToString of itself |
| Types.ToStringMap | pkg/types/interfaces.go:151-165 | a map[string]interface{} is returned unchanged. A map[interface{}]interface{} gives keys equal to exactly the ToString images of the original keys, and each holds the value of some original key with that image. Anything else gives nil |
| Types.Sprint | pkg/protocols/common/uncover/uncover.go:92-96 | fmt.Sprint prints nil as "<nil>" and a string as itself. Integers print as exactly Go's canonical decimal text, which reads back as the value. Bools, errors and Stringers print as ToString does |
| Uncover.Bindings | pkg/protocols/common/uncover/uncover.go:63-68 | the four replacer pairs, in argument order, all have nonempty old strings |
| Uncover.BindingsPort | pkg/protocols/common/uncover/uncover.go:66 | "port" is replaced by fmt.Sprint of the port number, which is its canonical decimal text |
| Uncover.Replace | pkg/protocols/common/uncover/uncover.go:69 | Replacer.Replace as a left-to-right scan that emits the replacement of the first matching pair and resumes after the match, else copies one byte; ReplaceNoOccurrence, ReplaceToken and ReplaceOtherByte state its behaviour |
| Uncover.MatchAt | pkg/protocols/common/uncover/uncover.go:63-69 | the replacer uses the first pair, in argument order, whose old string is a prefix of the remaining text; none earlier matches, and none at all when it reports no match |
| Uncover.ReplaceNoOccurrence | pkg/protocols/common/uncover/uncover.go:63-69 | text containing none of the old strings is returned verbatim |
| Uncover.ProcessUncoverOutput | pkg/protocols/common/uncover/uncover.go:58-70 | if the address or port is missing and the format mentions "ip" or "port", the output is the host alone; otherwise a format containing no token is output unchanged |
| Uncover.ReplaceFormat | pkg/protocols/common/uncover/uncover.go:59-69 | the replacer turns the fallback format "host" into exactly the host, and returns a format holding no token unchanged |
| Uncover.HostOnly | pkg/protocols/common/uncover/uncover.go:59-69 | the fallback format "host" becomes exactly the host, whatever the host contains |
| Uncover.TokenMatches | pkg/protocols/common/uncover/uncover.go:63-68 | at a position where ip, host, port or url starts, the replacer picks that token's pair |
| Uncover.ReplaceToken | pkg/protocols/common/uncover/uncover.go:63-69 | a token is replaced by its field and scanning resumes after it, so substituted text is never rescanned |
| Uncover.ReplaceOtherByte | pkg/protocols/common/uncover/uncover.go:63-69 | wherever no token matches at the scan position, that byte is copied and scanning moves on by one byte |
| Uncover.Contribution | pkg/protocols/common/uncover/uncover.go:88-97 | a list value contributes one fmt.Sprint-ed query per element, in order; any other value contributes exactly its own fmt.Sprint |
| Uncover.EngineOfKey | pkg/protocols/common/uncover/uncover.go:79-84 | a key names engine e exactly when the key is e followed by "-query" |
| Uncover.EnginesExactly | pkg/protocols/common/uncover/uncover.go:76-87 | e is an engine of the query map exactly when some template has the metadata key e + "-query" |
| Uncover.EngineQueriesOutside | pkg/protocols/common/uncover/uncover.go:85-97 | an engine that no template names receives no queries |
| Uncover.AppendQueries | pkg/protocols/common/uncover/uncover.go:88-97 | the type switch appends the value's contribution to the engine's queries, keeping what was there |
| Uncover.PartialEmpty | pkg/protocols/common/uncover/uncover.go:76-78 | before any key of a template is visited the map is that of the earlier templates |
| Uncover.PartialOtherKey | pkg/protocols/common/uncover/uncover.go:79-83 | a key without the "-query" suffix leaves the map unchanged |
| Uncover.PartialQueryKey | pkg/protocols/common/uncover/uncover.go:84-97 | a key e + "-query" creates engine e if it is new and appends the value's queries to it; every other engine keeps its queries |
| Uncover.PartialComplete | pkg/protocols/common/uncover/uncover.go:76-98 | once every key of template i is visited, the map is that of templates 0..i |
| Uncover.AddTemplateQueries | pkg/protocols/common/uncover/uncover.go:78-98 | the inner loop, in any key order, turns the map of the earlier templates into the map including this one |
| Uncover.Dedupe | pkg/protocols/common/uncover/uncover.go:101 | sliceutil.Dedupe leaves no repeated query and keeps exactly the same queries |
| Uncover.DedupeAfter | pkg/protocols/common/uncover/uncover.go:101 | no repeats, and it keeps exactly the elements of the input not already seen |
| Uncover.DedupeEach | pkg/protocols/common/uncover/uncover.go:100-102 | in any engine order, every engine keeps its key and gets its queries deduplicated |
| Uncover.GroupQueries | pkg/protocols/common/uncover/uncover.go:75-102 | the engines are exactly those named by a "-query" key of any template. Each engine's queries are its template-order queries, deduplicated: no repeats, and every query of any template for that engine is present. The result is the same for every map iteration order |
| OrderedMap.IndexOf | pkg/fuzz/component/cookie.go:41-43 | the position found holds the key and no earlier one does; no position exactly when the key is absent |
| OrderedMap.Set | pkg/fuzz/component/cookie.go:43 | an existing key keeps its position (the key order is unchanged); a new key is appended at the end; keys stay unique |
| OrderedMap.SetGet | pkg/fuzz/component/cookie.go:43 | after a set the key holds the new value and every other key keeps its value |
| OrderedMap.Delete | pkg/fuzz/component/cookie.go:79 | the entry with the key is removed; every other entry remains, in its original order; keys stay unique |
| Component.BuildEntriesKeys | pkg/fuzz/component/cookie.go:41-44 | the parsed map's keys are the cookie names in first-occurrence order |
| Component.BuildEntriesLastWins | pkg/fuzz/component/cookie.go:41-44 | for a name that occurs more than once, the map holds the value of its last occurrence |
| Component.FuzzableMembers | pkg/fuzz/component/cookie.go:56-58 | the entries offered for fuzzing are exactly those whose key is not in the ignored-cookie table |
| Component.FuzzablePrefix | pkg/fuzz/component/cookie.go:53-66 | iterating over a longer prefix of the map only extends what has been offered |
| Component.RebuildRoundTrip | pkg/fuzz/component/cookie.go:87-100 | parsing the cookies of a rebuilt request gives back the map it was rebuilt from |
| Component.Cookie.constructor | pkg/fuzz/component/cookie.go:23-25 | a new component has parsed nothing |
| Component.Cookie.Name | pkg/fuzz/component/cookie.go:28-30 | the component's name is "cookie" |
| Component.Cookie.Parse | pkg/fuzz/component/cookie.go:34-50 | no cookies gives false and no state change. Otherwise it gives true, stores the request, and stores the map built by setting each cookie in request order. It never errs |
| Component.Cookie.Iterate | pkg/fuzz/component/cookie.go:53-66 | the callback sees non-ignored entries in map order. Ignored ones are skipped without stopping. The first callback error stops the iteration and is returned. With no error, every fuzzable entry was visited |
| Component.Cookie.SetParsedValue | pkg/fuzz/component/cookie.go:71 | succeeds exactly when the key is present, then sets it in place; otherwise nothing changes |
| Component.Cookie.DeleteParsed | pkg/fuzz/component/cookie.go:79 | succeeds exactly when the key is present, then removes it; otherwise nothing changes |
| Component.Cookie.SetValue | pkg/fuzz/component/cookie.go:70-75 | ErrSetValue exactly when the key is absent, with the map unchanged. Otherwise the key takes the value in its own position |
| Component.Cookie.Delete | pkg/fuzz/component/cookie.go:78-83 | ErrKeyNotFound exactly when the key is absent, with the map unchanged. Otherwise the entry is removed and the rest keep their order |
| Component.Cookie.Rebuild | pkg/fuzz/component/cookie.go:87-100 | a copy of the stored request whose cookies are exactly the map entries in order, ignored keys included; the error is always nil |
| Component.Cookie.Clone | pkg/fuzz/component/cookie.go:103-108 | a new component with equal map and request |
| Component.RebuildTwice | pkg/fuzz/component/cookie.go:87-100 | rebuilding twice in a row gives the same request |
| Component.MutateClone | pkg/fuzz/component/cookie.go:103-108 | setting a value in a clone leaves the original's map and request as they were |
| Component.MutateOriginal | pkg/fuzz/component/cookie.go:103-108 | deleting from the original after a clone leaves the clone as it was |
| Component.ScenarioFuzzable | pkg/fuzz/component/cookie.go:112-152 | of session, __utma and theme, only session and theme are offered for fuzzing |
| Component.TrackingCookieScenario | pkg/fuzz/component/cookie.go:34-100 | parsing session, __utma and theme visits session and theme only. Setting theme=light and rebuilding gives all three cookies, in order, with the new theme |

## Left out

- Network I/O and concurrency in uncover.go are left out: GetTargetsFromUncover, GetUncoverSupportedAgents, the result channels, the goroutine and its target limit counter, and the logging at line 104.
- The engine-keys listing (uncover.go:103) and everything after line 102 run uncover queries over the network; they are left out.
- Cookie syntax is left out. The request's cookies are taken as already split by net/http (`req.Cookies()`), and AddCookie's sanitising of names and values is not modelled.
- Rebuild's `cloned.Header.Del("Cookie")` is reflected only in that the rebuilt cookie list replaces the old one. Other headers are carried unchanged in `Request.headers`.
- Cookie values stored in the map are always strings, so `fmt.Sprint(value)` in Rebuild is the identity.
- Go pointer aliasing is not modelled. A request is a value, and `req.Clone` is a copy.
- Component.Cookie.Parse: the second emptiness check (cookie.go:45-47) cannot fire. A nonempty cookie list always builds a nonempty map, so the model has no such branch.
- Floating-point formatting (strconv.FormatFloat with 'f', -1), `%v` formatting of arbitrary values, and hex.Dump are not modelled. Each is an uninterpreted function (`FormatFloat64`, `FormatFloat32`, `FormatV`, `HexDump`), and contracts about floats say nothing about the text.
- The severity.Holder and severity.Severity cases of ToString are covered by the Stringer constructor, which carries a value's `String()` text. User-defined Stringer and error methods are likewise represented by the text they return.
- Types.ToStringNSlice: Go's nil slice (from an empty input) and an empty slice are not distinguished.
- Types.ToStringSlice: Go's nil slice and an empty slice are not distinguished.
- Types.ToStringSlice: white space is the ASCII set strings.Fields uses for ASCII input; Unicode white space in non-ASCII input is not modelled.
- Types.ToStringMap: when several keys stringify to the same text, which value wins depends on Go's map iteration order. The contract states only that some such key's value is kept.
- GoText.Fields: only the ASCII white-space bytes (tab, LF, VT, FF, CR, space) separate fields. Go's strings.Fields switches to unicode.IsSpace once any byte is 0x80 or above, so it also splits at U+0085 or U+00A0; that path is not modelled.
- Uncover.MatchAt: the strings.Replacer model assumes nonempty old strings, the only kind processUncoverOutput uses. Go's handling of an empty old string is not modelled.
- Uncover.Replace: requires nonempty old strings for the same reason; its one caller's four pairs (pkg/protocols/common/uncover/uncover.go:63-68) all meet this, as Uncover.Bindings proves.
- Uncover.ProcessUncoverOutput: result.Port is modelled as a 64-bit Go `int`, with fmt.Sprint giving its decimal text.
- Uncover.Dedupe: the contract states no repeats and the same elements. The first-occurrence order of sliceutil.Dedupe is fixed by the definition, and no separate lemma states it.
- Component.Cookie.Iterate: the callback is a total function of key and value. A callback with side effects is not modelled; `visited` records what it was called with.

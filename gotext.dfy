/**
 * The pieces of Go's `strings` and `strconv` packages that the modelled code
 * relies on, over Go strings taken as what they are in Go: byte sequences.
 */
module GoText {
  import opened Wrappers

  /** A Go byte. */
  type Byte = b: int | 0 <= b < 256

  /** A Go `string` or `[]byte`: a sequence of bytes. */
  type ByteString = seq<Byte>

  /** The bytes of an ASCII literal written in the model. */
  function Lit(s: string): (r: ByteString)
    requires forall i :: 0 <= i < |s| ==> s[i] as int < 128
    ensures |r| == |s|
    ensures forall i :: 0 <= i < |s| ==> r[i] == s[i] as int
  {
    seq(|s|, i requires 0 <= i < |s| => s[i] as int)
  }

  // ---------------------------------------------------------------------
  // Decimal formatting (strconv.Itoa, FormatInt(_, 10), FormatUint(_, 10))
  // ---------------------------------------------------------------------

  const Minus: Byte := 45

  predicate IsDigit(b: Byte) { 48 <= b <= 57 }

  predicate AllDigits(s: ByteString) { forall i :: 0 <= i < |s| ==> IsDigit(s[i]) }

  /** The base-10 digits of `n`, most significant first, without leading zeros. */
  function NatDecimal(n: nat): (r: ByteString)
    ensures |r| >= 1 && AllDigits(r)
    ensures (r[0] == 48) == (n == 0)
    ensures (|r| == 1) == (n < 10)
    decreases n
  {
    if n < 10 then [48 + n] else NatDecimal(n / 10) + [48 + n % 10]
  }

  /** Go's base-10 rendering of an integer: a minus sign for negatives, then the digits. */
  function Decimal(i: int): (r: ByteString)
  {
    if i < 0 then [Minus] + NatDecimal(-i) else NatDecimal(i)
  }

  /**
   * The rendering is canonical: a minus sign exactly for negatives, then
   * digits with no leading zero (so zero is "0", never "-0" or "00").
   */
  lemma DecimalCanonical(i: int)
    ensures |Decimal(i)| >= 1 && (Decimal(i)[0] == Minus) == (i < 0)
    ensures i < 0 ==> |Decimal(i)| >= 2 && AllDigits(Decimal(i)[1..]) && Decimal(i)[1] != 48
    ensures i >= 0 ==> AllDigits(Decimal(i)) && (Decimal(i)[0] == 48 ==> Decimal(i) == [48])
  {
    if i < 0 {
      assert Decimal(i)[1..] == NatDecimal(-i);
    }
  }

  /** The number a nonempty run of decimal digits denotes. */
  function DigitsValue(s: ByteString): nat
    requires AllDigits(s)
    decreases |s|
  {
    if s == [] then 0 else DigitsValue(s[..|s| - 1]) * 10 + (s[|s| - 1] - 48)
  }

  /** The independent reading of a decimal rendering: an optional minus, then digits. */
  function ParseDecimal(s: ByteString): (r: Option<int>)
    ensures r.Some? ==> |s| >= 1
  {
    if |s| >= 2 && s[0] == Minus && AllDigits(s[1..]) then Some(0 - DigitsValue(s[1..]))
    else if |s| >= 1 && AllDigits(s) then Some(DigitsValue(s))
    else None
  }

  lemma {:induction false} NatDecimalValue(n: nat)
    ensures DigitsValue(NatDecimal(n)) == n
    decreases n
  {
    if n >= 10 {
      var ds := NatDecimal(n);
      NatDecimalValue(n / 10);
      assert ds[..|ds| - 1] == NatDecimal(n / 10);
    }
  }

  /** Reading back the decimal rendering of any integer gives that integer. */
  lemma DecimalRoundTrip(i: int)
    ensures ParseDecimal(Decimal(i)) == Some(i)
  {
    if i < 0 {
      NegativeRoundTrip(-i);
    } else {
      NatRoundTrip(i);
    }
  }

  lemma NatRoundTrip(n: nat)
    ensures ParseDecimal(NatDecimal(n)) == Some(n)
  {
    var d := NatDecimal(n);
    NatDecimalValue(n);
    assert IsDigit(d[0]);
  }

  lemma NegativeRoundTrip(n: nat)
    requires n > 0
    ensures ParseDecimal([Minus] + NatDecimal(n)) == Some(0 - n)
  {
    var d := NatDecimal(n);
    var s := [Minus] + d;
    NatDecimalValue(n);
    assert s[0] == Minus && s[1..] == d;
  }

  /** Distinct integers have distinct decimal renderings. */
  lemma DecimalInjective(i: int, j: int)
    requires Decimal(i) == Decimal(j)
    ensures i == j
  {
    DecimalRoundTrip(i);
    DecimalRoundTrip(j);
  }

  // ---------------------------------------------------------------------
  // Character classes
  // ---------------------------------------------------------------------

  /** govalidator.IsASCII: every byte is below 0x80 (the empty string included). */
  predicate IsASCII(s: ByteString) { forall i :: 0 <= i < |s| ==> s[i] < 128 }

  /** The ASCII white space of strings.Fields: tab, LF, VT, FF, CR and space. */
  predicate IsSpace(b: Byte) { b == 9 || b == 10 || b == 11 || b == 12 || b == 13 || b == 32 }

  predicate NoSpace(s: ByteString) { forall i :: 0 <= i < |s| ==> !IsSpace(s[i]) }

  // ---------------------------------------------------------------------
  // Concatenation (strings.Join(_, ""), bytes.Buffer)
  // ---------------------------------------------------------------------

  /** The separator-free concatenation of a list of strings. */
  function Concat(ss: seq<ByteString>): ByteString
  {
    if ss == [] then [] else ss[0] + Concat(ss[1..])
  }

  lemma {:induction false} ConcatSnoc(ss: seq<ByteString>, s: ByteString)
    ensures Concat(ss + [s]) == Concat(ss) + s
  {
    if ss != [] {
      assert (ss + [s])[1..] == ss[1..] + [s];
      ConcatSnoc(ss[1..], s);
    }
  }

  /** The strings joined with one space between neighbours (strings.Join(_, " ")). */
  function JoinSpace(ss: seq<ByteString>): ByteString
  {
    if ss == [] then [] else if |ss| == 1 then ss[0] else ss[0] + [32] + JoinSpace(ss[1..])
  }

  // ---------------------------------------------------------------------
  // strings.Fields
  // ---------------------------------------------------------------------

  /** `s` without its leading white space. */
  function TrimLeftSpace(s: ByteString): (r: ByteString)
    ensures |r| <= |s| && r == s[|s| - |r|..]
    ensures r == [] || !IsSpace(r[0])
    ensures forall i :: 0 <= i < |s| - |r| ==> IsSpace(s[i])
  {
    if s != [] && IsSpace(s[0]) then TrimLeftSpace(s[1..]) else s
  }

  /** The longest prefix of `s` without white space. */
  function Word(s: ByteString): (r: ByteString)
    ensures r <= s && NoSpace(r)
    ensures |r| < |s| ==> IsSpace(s[|r|])
    ensures s != [] && !IsSpace(s[0]) ==> |r| >= 1
  {
    if s == [] || IsSpace(s[0]) then [] else [s[0]] + Word(s[1..])
  }

  /** The bytes of `s` that are not white space, in order. */
  function NonSpace(s: ByteString): ByteString
  {
    if s == [] then [] else (if IsSpace(s[0]) then [] else [s[0]]) + NonSpace(s[1..])
  }

  lemma {:induction false} NonSpaceAppend(a: ByteString, b: ByteString)
    ensures NonSpace(a + b) == NonSpace(a) + NonSpace(b)
  {
    if a != [] {
      assert (a + b)[0] == a[0];
      assert (a + b)[1..] == a[1..] + b;
      NonSpaceAppend(a[1..], b);
      calc {
        NonSpace(a + b);
        (if IsSpace(a[0]) then [] else [a[0]]) + NonSpace(a[1..] + b);
        (if IsSpace(a[0]) then [] else [a[0]]) + (NonSpace(a[1..]) + NonSpace(b));
        ((if IsSpace(a[0]) then [] else [a[0]]) + NonSpace(a[1..])) + NonSpace(b);
        NonSpace(a) + NonSpace(b);
      }
    } else {
      assert a + b == b;
    }
  }

  lemma {:induction false} NonSpaceOfSpaces(s: ByteString)
    requires forall i :: 0 <= i < |s| ==> IsSpace(s[i])
    ensures NonSpace(s) == []
  {
    if s != [] { NonSpaceOfSpaces(s[1..]); }
  }

  lemma {:induction false} NonSpaceOfWord(s: ByteString)
    requires NoSpace(s)
    ensures NonSpace(s) == s
  {
    if s != [] { NonSpaceOfWord(s[1..]); }
  }

  /** strings.Fields: `s` split around each run of white space. */
  function Fields(s: ByteString): (r: seq<ByteString>)
    decreases |s|
  {
    var t := TrimLeftSpace(s);
    if t == [] then [] else [Word(t)] + Fields(t[|Word(t)|..])
  }

  /** No field is empty or holds white space. */
  lemma {:induction false} FieldsWords(s: ByteString)
    ensures forall i :: 0 <= i < |Fields(s)| ==> Fields(s)[i] != [] && NoSpace(Fields(s)[i])
    decreases |s|
  {
    var t := TrimLeftSpace(s);
    if t != [] {
      var w := Word(t);
      var rest := t[|w|..];
      FieldsWords(rest);
      FieldsStep(s);
      ConsWords(w, Fields(rest));
    }
  }

  /** One step of Fields: the first word, then the fields of what follows it. */
  lemma FieldsStep(s: ByteString)
    requires TrimLeftSpace(s) != []
    ensures Fields(s) == [Word(TrimLeftSpace(s))] + Fields(TrimLeftSpace(s)[|Word(TrimLeftSpace(s))|..])
  {
  }

  lemma ConsWords(w: ByteString, ws: seq<ByteString>)
    requires w != [] && NoSpace(w)
    requires forall i :: 0 <= i < |ws| ==> ws[i] != [] && NoSpace(ws[i])
    ensures forall i :: 0 <= i < |[w] + ws| ==> ([w] + ws)[i] != [] && NoSpace(([w] + ws)[i])
  {
    forall i | 0 <= i < |[w] + ws| ensures ([w] + ws)[i] != [] && NoSpace(([w] + ws)[i]) {
      if i > 0 { assert ([w] + ws)[i] == ws[i - 1]; }
    }
  }

  /** Together the fields are exactly the non-space bytes of `s`, in order. */
  lemma {:induction false} FieldsConcat(s: ByteString)
    ensures Concat(Fields(s)) == NonSpace(s)
    decreases |s|
  {
    var t := TrimLeftSpace(s);
    NonSpaceTrim(s);
    if t != [] {
      var w := Word(t);
      var rest := t[|w|..];
      FieldsConcat(rest);
      FieldsStep(s);
      NonSpaceWord(t);
      assert Concat([w] + Fields(rest)) == w + Concat(Fields(rest));
    }
  }

  /** Leading white space contributes no non-space bytes. */
  lemma NonSpaceTrim(s: ByteString)
    ensures NonSpace(TrimLeftSpace(s)) == NonSpace(s)
  {
    var t := TrimLeftSpace(s);
    var pre := s[..|s| - |t|];
    assert s == pre + t;
    NonSpaceOfSpaces(pre);
    NonSpaceAppend(pre, t);
  }

  /** The non-space bytes of a string are its first word then those of the rest. */
  lemma NonSpaceWord(t: ByteString)
    ensures NonSpace(t) == Word(t) + NonSpace(t[|Word(t)|..])
  {
    var w := Word(t);
    var rest := t[|w|..];
    assert t == w + rest;
    NonSpaceAppend(w, rest);
    NonSpaceOfWord(w);
  }

  lemma {:induction false} WordOfJoin(w: ByteString, rest: ByteString)
    requires NoSpace(w)
    requires rest == [] || IsSpace(rest[0])
    ensures Word(w + rest) == w
  {
    if w != [] {
      assert (w + rest)[1..] == w[1..] + rest;
      WordOfJoin(w[1..], rest);
    }
  }

  lemma {:induction false} TrimLeftSpaceOfSpaces(pre: ByteString, s: ByteString)
    requires forall i :: 0 <= i < |pre| ==> IsSpace(pre[i])
    requires s == [] || !IsSpace(s[0])
    ensures TrimLeftSpace(pre + s) == s
  {
    if pre != [] {
      assert (pre + s)[1..] == pre[1..] + s;
      TrimLeftSpaceOfSpaces(pre[1..], s);
    }
  }

  lemma JoinSpaceStart(ws: seq<ByteString>)
    requires forall i :: 0 <= i < |ws| ==> ws[i] != []
    ensures ws != [] ==> JoinSpace(ws) != [] && JoinSpace(ws)[0] == ws[0][0]
  {
  }

  /** Fields of a nonempty word followed by nothing or by white space and more. */
  lemma FieldsOfWordThen(w: ByteString, tail: ByteString)
    requires w != [] && NoSpace(w)
    requires tail == [] || IsSpace(tail[0])
    ensures Fields(w + tail) == [w] + Fields(tail)
  {
    var s := w + tail;
    assert TrimLeftSpace(s) == s by {
      assert s[0] == w[0];
    }
    WordOfJoin(w, tail);
    assert s[|w|..] == tail;
  }

  /** The fields of a word, a space and a string starting with a word. */
  lemma FieldsCons(w: ByteString, j: ByteString)
    requires w != [] && NoSpace(w)
    requires j != [] && !IsSpace(j[0])
    ensures Fields(w + ([32] + j)) == [w] + Fields(j)
  {
    var s := [32] + j;
    FieldsOfWordThen(w, s);
    FieldsSkipSpace(j);
  }

  lemma FieldsSkipSpace(j: ByteString)
    requires j != [] && !IsSpace(j[0])
    ensures Fields([32] + j) == Fields(j)
  {
    TrimLeftSpaceOfSpaces([32], j);
  }

  lemma JoinSpaceCons(ws: seq<ByteString>)
    requires |ws| > 1
    ensures JoinSpace(ws) == ws[0] + ([32] + JoinSpace(ws[1..]))
  {
    var j := JoinSpace(ws[1..]);
    assert JoinSpace(ws) == ws[0] + [32] + j;
    SpaceBetween(ws[0], j);
  }

  lemma SpaceBetween(a: ByteString, b: ByteString)
    ensures a + [32] + b == a + ([32] + b)
  {
  }

  /** Splitting single-space-joined words gives the words back. */
  lemma {:induction false} FieldsOfJoinSpace(ws: seq<ByteString>)
    requires forall i :: 0 <= i < |ws| ==> ws[i] != [] && NoSpace(ws[i])
    ensures Fields(JoinSpace(ws)) == ws
  {
    if |ws| == 1 {
      FieldsOfWordThen(ws[0], []);
      assert ws[0] + [] == ws[0];
    } else if |ws| > 1 {
      var rest := ws[1..];
      JoinSpaceCons(ws);
      JoinSpaceStart(rest);
      FieldsOfJoinSpace(rest);
      FieldsCons(ws[0], JoinSpace(rest));
      assert ws == [ws[0]] + rest;
    }
  }

  // ---------------------------------------------------------------------
  // Substrings, prefixes and suffixes
  // ---------------------------------------------------------------------

  /** strings.HasSuffix. */
  predicate HasSuffix(s: ByteString, suffix: ByteString)
  {
    |suffix| <= |s| && s[|s| - |suffix|..] == suffix
  }

  /** strings.TrimSuffix: `s` without `suffix` when it ends with it, otherwise `s`. */
  function TrimSuffix(s: ByteString, suffix: ByteString): (r: ByteString)
    ensures HasSuffix(s, suffix) ==> r + suffix == s
    ensures !HasSuffix(s, suffix) ==> r == s
  {
    if HasSuffix(s, suffix) then s[..|s| - |suffix|] else s
  }

  lemma TrimSuffixOfAppend(e: ByteString, suffix: ByteString)
    ensures HasSuffix(e + suffix, suffix) && TrimSuffix(e + suffix, suffix) == e
  {
    assert (e + suffix)[|e|..] == suffix;
    assert (e + suffix)[..|e|] == e;
  }

  /** `sub` occurs in `s` starting at index `i`. */
  predicate OccursAt(s: ByteString, sub: ByteString, i: int)
  {
    0 <= i <= |s| - |sub| && s[i..i + |sub|] == sub
  }

  /** strings.Contains: `sub` occurs somewhere in `s`. */
  function Contains(s: ByteString, sub: ByteString): (r: bool)
    ensures r <==> exists i :: OccursAt(s, sub, i)
    decreases |s|
  {
    if sub <= s then (assert OccursAt(s, sub, 0); true)
    else if s == [] then false
    else
      var r := Contains(s[1..], sub);
      assert forall i :: OccursAt(s, sub, i + 1) <==> OccursAt(s[1..], sub, i) by {
        forall i ensures OccursAt(s, sub, i + 1) <==> OccursAt(s[1..], sub, i) {
          if 0 <= i <= |s[1..]| - |sub| { assert s[i + 1..i + 1 + |sub|] == s[1..][i..i + |sub|]; }
        }
      }
      assert !OccursAt(s, sub, 0);
      assert (exists i :: OccursAt(s, sub, i)) ==> exists i :: OccursAt(s[1..], sub, i) by {
        if exists i :: OccursAt(s, sub, i) {
          var i :| OccursAt(s, sub, i);
          assert OccursAt(s[1..], sub, i - 1);
        }
      }
      r
  }
}

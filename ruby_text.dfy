/** The parts of Ruby's String behaviour that puppet_utils.rb relies on:
    `strip`, `split` with a one-character separator, `to_i`, Integer#to_s,
    `join` and substring search (a regular expression made of one literal). */
module RubyText {

  datatype Option<+T> = None | Some(value: T)

  /** Characters removed by String#strip: NUL and ASCII whitespace. */
  predicate IsStripped(c: char) {
    c == '\0' || c == ' ' || c == '\t' || c == '\n' || c == '\U{0B}' || c == '\U{0C}' || c == '\r'
  }

  /** Characters skipped by String#to_i before the number. */
  predicate IsSpace(c: char) {
    c == ' ' || c == '\t' || c == '\n' || c == '\U{0B}' || c == '\U{0C}' || c == '\r'
  }

  predicate IsDigit(c: char) { '0' <= c <= '9' }

  predicate AllDigits(s: string) { forall i :: 0 <= i < |s| ==> IsDigit(s[i]) }

  // ---------------------------------------------------------------- strip

  function LStrip(s: string): string {
    if |s| > 0 && IsStripped(s[0]) then LStrip(s[1..]) else s
  }

  /** `lstrip` removes a prefix of stripped characters, and all of them. */
  lemma {:induction false} LStripSpec(s: string)
    ensures var r := LStrip(s);
      && |r| <= |s| && r == s[|s| - |r|..]
      && (r == [] || !IsStripped(r[0]))
      && forall i :: 0 <= i < |s| - |r| ==> IsStripped(s[i])
    decreases |s|
  {
    if |s| > 0 && IsStripped(s[0]) {
      LStripSpec(s[1..]);
      var r := LStrip(s);
      assert r == s[1..][|s[1..]| - |r|..];
    }
  }

  function RStrip(s: string): string {
    if |s| > 0 && IsStripped(s[|s| - 1]) then RStrip(s[..|s| - 1]) else s
  }

  /** `rstrip` removes a suffix of stripped characters, and all of them. */
  lemma {:induction false} RStripSpec(s: string)
    ensures var r := RStrip(s);
      && |r| <= |s| && r == s[..|r|]
      && (r == [] || !IsStripped(r[|r| - 1]))
      && forall i :: |r| <= i < |s| ==> IsStripped(s[i])
    decreases |s|
  {
    if |s| > 0 && IsStripped(s[|s| - 1]) {
      RStripSpec(s[..|s| - 1]);
      var r := RStrip(s);
      assert r == s[..|s| - 1][..|r|];
    }
  }

  /** `r` sits at index `k` of `s`, and only stripped characters surround it. */
  predicate StrippedAt(s: string, k: int, r: string) {
    0 <= k <= |s| - |r| && r == s[k..k + |r|] &&
    (forall i :: 0 <= i < k ==> IsStripped(s[i])) &&
    (forall i :: k + |r| <= i < |s| ==> IsStripped(s[i]))
  }

  /** String#strip: the longest infix of `s` that neither starts nor ends
      with NUL or whitespace, obtained by removing only such characters. */
  function Strip(s: string): string {
    RStrip(LStrip(s))
  }

  /** What `strip` promises: an infix of `s`, surrounded only by stripped
      characters, that neither starts nor ends with one. */
  lemma StripSpec(s: string)
    ensures exists k :: StrippedAt(s, k, Strip(s))
    ensures Strip(s) == [] || (!IsStripped(Strip(s)[0]) && !IsStripped(Strip(s)[|Strip(s)| - 1]))
  {
    var l := LStrip(s);
    var r := RStrip(l);
    var k := |s| - |l|;
    LStripSpec(s);
    RStripSpec(l);
    assert r == s[k..k + |r|];
    assert StrippedAt(s, k, r);
    assert r == Strip(s);
  }

  lemma StripIdempotent(s: string)
    ensures Strip(Strip(s)) == Strip(s)
  {
    var t := Strip(s);
    StripSpec(s);
    assert LStrip(t) == t;
    assert RStrip(t) == t;
  }

  /** Stripped characters in front of a text that does not start with one
      are all removed by `lstrip`, and nothing else is. */
  lemma {:induction false} LStripPrefix(pre: string, rest: string)
    requires forall i :: 0 <= i < |pre| ==> IsStripped(pre[i])
    requires rest == [] || !IsStripped(rest[0])
    ensures LStrip(pre + rest) == rest
    decreases |pre|
  {
    if pre == [] {
      assert pre + rest == rest;
    } else {
      LStripPrefix(pre[1..], rest);
      assert (pre + rest)[1..] == pre[1..] + rest;
    }
  }

  /** Stripped characters after a text that does not end with one are all
      removed by `rstrip`, and nothing else is. */
  lemma {:induction false} RStripSuffix(rest: string, post: string)
    requires forall i :: 0 <= i < |post| ==> IsStripped(post[i])
    requires rest == [] || !IsStripped(rest[|rest| - 1])
    ensures RStrip(rest + post) == rest
    decreases |post|
  {
    if post == [] {
      assert rest + post == rest;
    } else {
      var post' := post[..|post| - 1];
      RStripSuffix(rest, post');
      assert (rest + post)[..|rest + post| - 1] == rest + post';
    }
  }

  /** `strip` removes any NUL and whitespace around a text that neither
      starts nor ends with one, and gives that text back. */
  lemma StripSurrounded(pre: string, a: string, post: string)
    requires forall i :: 0 <= i < |pre| ==> IsStripped(pre[i])
    requires forall i :: 0 <= i < |post| ==> IsStripped(post[i])
    requires a == [] || (!IsStripped(a[0]) && !IsStripped(a[|a| - 1]))
    ensures Strip(pre + a + post) == a
  {
    if a == [] {
      assert pre + a + post == pre + post;
      if post == [] {
        LStripPrefix(pre, post);
      } else {
        LStripPrefixAll(pre + post);
      }
      RStripSuffix([], []);
    } else {
      assert pre + a + post == pre + (a + post);
      LStripPrefix(pre, a + post);
      RStripSuffix(a, post);
    }
  }

  /** A text made only of stripped characters is removed entirely by `lstrip`. */
  lemma {:induction false} LStripPrefixAll(s: string)
    requires forall i :: 0 <= i < |s| ==> IsStripped(s[i])
    ensures LStrip(s) == []
    decreases |s|
  {
    if s != [] {
      LStripPrefixAll(s[1..]);
    }
  }

  // ---------------------------------------------------------------- split

  /** Every field of `s` between occurrences of `d`, empty ones included. */
  function Fields(s: string, d: char): (r: seq<string>)
    ensures |r| >= 1
    ensures forall i :: 0 <= i < |r| ==> d !in r[i]
    decreases |s|
  {
    if |s| == 0 then [""]
    else
      var rest := Fields(s[1..], d);
      if s[0] == d then [""] + rest else [[s[0]] + rest[0]] + rest[1..]
  }

  /** Array#join with a string separator. */
  function Join(xs: seq<string>, sep: string): string
    decreases |xs|
  {
    if |xs| == 0 then "" else if |xs| == 1 then xs[0] else xs[0] + sep + Join(xs[1..], sep)
  }

  lemma JoinThree(x: string, y: string, z: string, sep: string)
    ensures Join([x, y, z], sep) == x + sep + y + sep + z
  {
    var xs := [x, y, z];
    assert xs[1..] == [y, z] && xs[1..][1..] == [z];
    assert Join([z], sep) == z;
    assert Join([y, z], sep) == y + sep + z;
  }

  function DropTrailingEmpty(xs: seq<string>): (r: seq<string>)
    ensures |r| <= |xs| && r == xs[..|r|]
    ensures r == [] || r[|r| - 1] != ""
    ensures forall i :: |r| <= i < |xs| ==> xs[i] == ""
  {
    if |xs| > 0 && xs[|xs| - 1] == "" then DropTrailingEmpty(xs[..|xs| - 1]) else xs
  }

  /** String#split with a one-character string separator: the fields of `s`
      in order, with the trailing empty ones removed.  */
  function Split(s: string, d: char): (r: seq<string>)
    ensures |r| <= |Fields(s, d)| && r == Fields(s, d)[..|r|]
    ensures r == [] || r[|r| - 1] != ""
    ensures forall i :: |r| <= i < |Fields(s, d)| ==> Fields(s, d)[i] == ""
  {
    DropTrailingEmpty(Fields(s, d))
  }

  /** Joining the fields with the separator gives back the string. */
  lemma {:induction false} JoinFields(s: string, d: char)
    ensures Join(Fields(s, d), [d]) == s
    decreases |s|
  {
    if |s| > 0 {
      JoinFields(s[1..], d);
      var rest := Fields(s[1..], d);
      if s[0] == d {
        assert Fields(s, d) == [""] + rest;
        assert s == [d] + s[1..];
      } else {
        var f := Fields(s, d);
        assert f == [[s[0]] + rest[0]] + rest[1..];
        if |rest| == 1 {
          assert Join(rest, [d]) == rest[0];
        } else {
          assert Join(rest, [d]) == rest[0] + [d] + Join(rest[1..], [d]);
          assert f[1..] == rest[1..];
        }
        assert s == [s[0]] + s[1..];
      }
    }
  }

  lemma {:induction false} FieldsOfPlain(a: string, d: char)
    requires d !in a
    ensures Fields(a, d) == [a]
    decreases |a|
  {
    if |a| > 0 {
      FieldsOfPlain(a[1..], d);
      assert [a[0]] + a[1..] == a;
    }
  }

  lemma {:induction false} FieldsOfCons(a: string, d: char, b: string)
    requires d !in a
    ensures Fields(a + [d] + b, d) == [a] + Fields(b, d)
    decreases |a|
  {
    if |a| == 0 {
      assert a + [d] + b == [d] + b;
      assert ([d] + b)[1..] == b;
    } else {
      var s := a + [d] + b;
      assert s[1..] == a[1..] + [d] + b;
      FieldsOfCons(a[1..], d, b);
      assert [a[0]] + a[1..] == a;
    }
  }

  /** Splitting a join gives back the parts, when no part holds the separator. */
  lemma {:induction false} FieldsOfJoin(xs: seq<string>, d: char)
    requires |xs| >= 1
    requires forall i :: 0 <= i < |xs| ==> d !in xs[i]
    ensures Fields(Join(xs, [d]), d) == xs
    decreases |xs|
  {
    if |xs| == 1 {
      FieldsOfPlain(xs[0], d);
    } else {
      FieldsOfJoin(xs[1..], d);
      FieldsOfCons(xs[0], d, Join(xs[1..], [d]));
      assert [xs[0]] + xs[1..] == xs;
    }
  }

  // ---------------------------------------------------------------- to_i

  function DigitValue(c: char): nat requires IsDigit(c) { (c as int - '0' as int) as nat }

  function DigitChar(n: nat): (c: char)
    requires n < 10
    ensures IsDigit(c) && DigitValue(c) == n
  {
    ('0' as int + n) as char
  }

  /** The digits String#to_i reads from the front of `s`: a run of digits in
      which a single underscore may stand between two digits (it is dropped). */
  function LeadingDigits(s: string): (r: string)
    ensures AllDigits(r) && |r| <= |s|
    decreases |s|
  {
    if |s| == 0 || !IsDigit(s[0]) then ""
    else if |s| >= 3 && s[1] == '_' && IsDigit(s[2]) then [s[0]] + LeadingDigits(s[2..])
    else [s[0]] + LeadingDigits(s[1..])
  }

  /** The number a string of decimal digits denotes. */
  function DecimalValue(ds: string): nat
    requires AllDigits(ds)
    decreases |ds|
  {
    if |ds| == 0 then 0 else 10 * DecimalValue(ds[..|ds| - 1]) + DigitValue(ds[|ds| - 1])
  }

  function SkipSpace(s: string): (r: string)
    ensures |r| <= |s| && r == s[|s| - |r|..]
    ensures r == [] || !IsSpace(r[0])
  {
    if |s| > 0 && IsSpace(s[0]) then SkipSpace(s[1..]) else s
  }

  /** String#to_i in base 10: leading whitespace is skipped, a sign may
      follow, then the leading digits are read; text without them gives 0. */
  function ToI(s: string): int {
    var t := SkipSpace(s);
    if |t| > 0 && t[0] == '-' then -(DecimalValue(LeadingDigits(t[1..])) as int)
    else if |t| > 0 && t[0] == '+' then DecimalValue(LeadingDigits(t[1..]))
    else DecimalValue(LeadingDigits(t))
  }

  // ---------------------------------------------------------------- to_s

  /** Integer#to_s for a non-negative integer: its decimal digits, no leading zero. */
  function NatToString(n: nat): (r: string)
    ensures |r| >= 1 && AllDigits(r)
    ensures |r| > 1 ==> r[0] != '0'
    decreases n
  {
    if n < 10 then [DigitChar(n)] else NatToString(n / 10) + [DigitChar(n % 10)]
  }

  lemma {:induction false} DecimalOfNatToString(n: nat)
    ensures DecimalValue(NatToString(n)) == n
    decreases n
  {
    if n >= 10 {
      DecimalOfNatToString(n / 10);
      var s := NatToString(n);
      assert s[..|s| - 1] == NatToString(n / 10);
    }
  }

  lemma {:induction false} LeadingDigitsOfDigits(s: string)
    requires AllDigits(s)
    ensures LeadingDigits(s) == s
    decreases |s|
  {
    if |s| > 0 {
      LeadingDigitsOfDigits(s[1..]);
      assert [s[0]] + s[1..] == s;
    }
  }

  /** A plain run of digits reads as its decimal value. */
  lemma ToIOfDigits(s: string)
    requires |s| >= 1 && AllDigits(s)
    ensures ToI(s) == DecimalValue(s)
  {
    assert IsDigit(s[0]);
    assert !IsSpace(s[0]) && s[0] != '-' && s[0] != '+';
    assert SkipSpace(s) == s;
    LeadingDigitsOfDigits(s);
  }

  /** Reading back what Integer#to_s wrote gives the integer. */
  lemma ToINatToString(n: nat)
    ensures ToI(NatToString(n)) == n
  {
    ToIOfDigits(NatToString(n));
    DecimalOfNatToString(n);
  }

  // ---------------------------------------------------------------- search

  /** `sub` occurs in `s` starting at index `i`. */
  predicate OccursAt(s: string, sub: string, i: int) {
    0 <= i && i + |sub| <= |s| && s[i..i + |sub|] == sub
  }

  function ContainsFrom(s: string, sub: string, i: nat): (r: bool)
    ensures r <==> exists k :: i <= k && OccursAt(s, sub, k)
    decreases |s| - i
  {
    if i + |sub| > |s| then false
    else if s[i..i + |sub|] == sub then assert OccursAt(s, sub, i); true
    else ContainsFrom(s, sub, i + 1)
  }

  /** A regular expression made of one literal matches: `sub` occurs in `s`. */
  function Contains(s: string, sub: string): (r: bool)
    ensures r <==> exists k :: OccursAt(s, sub, k)
  {
    ContainsFrom(s, sub, 0)
  }

  lemma ContainsWitness(s: string, sub: string, k: int)
    requires 0 <= k && k + |sub| <= |s| && s[k..k + |sub|] == sub
    ensures Contains(s, sub)
  {
    assert OccursAt(s, sub, k);
  }
}

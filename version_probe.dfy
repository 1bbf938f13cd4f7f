/** Reading versions from the output of a probe command
    (puppet_utils.rb:132-149): `facter aio_agent_version` and
    `puppetserver --version`, both run accepting every exit code. */
module VersionProbe {
  import opened RubyText
  import opened Harness

  const AgentVersionCommand := "facter aio_agent_version"
  const ServerVersionCommand := "puppetserver --version"

  /** puppet_agent_version_on: the stripped output, when the probe exited 0. */
  function AgentVersionFrom(o: Output): (r: Option<string>)
    ensures r.Some? <==> o.exitCode == 0
    ensures r.Some? ==> exists k :: StrippedAt(o.stdout, k, r.value)
    ensures r.Some? ==> r.value == [] || (!IsStripped(r.value[0]) && !IsStripped(r.value[|r.value| - 1]))
  {
    if o.exitCode == 0 then StripSpec(o.stdout); Some(Strip(o.stdout)) else None
  }

  // ------------------------------------------------------------------
  // `scan(/\d+\.\d+\.\d+/)`

  /** The length of the run of digits starting at `i`. */
  function DigitRun(s: string, i: nat): (n: nat)
    requires i <= |s|
    ensures i + n <= |s|
    ensures forall j :: i <= j < i + n ==> IsDigit(s[j])
    ensures i + n == |s| || !IsDigit(s[i + n])
    decreases |s| - i
  {
    if i < |s| && IsDigit(s[i]) then 1 + DigitRun(s, i + 1) else 0
  }

  /** The length of the match of `\d+\.\d+\.\d+` at `p`, or 0 when there is
      none. Each `\d+` is greedy and giving back digits never lets a `.`
      follow, so the match, when there is one, takes whole digit runs. */
  function MatchLen(s: string, p: nat): (n: nat)
    requires p <= |s|
    ensures p + n <= |s|
    ensures n == 0 || n >= 5
  {
    var a := DigitRun(s, p);
    if a == 0 || p + a == |s| || s[p + a] != '.' then 0
    else
      var q := p + a + 1;
      var b := DigitRun(s, q);
      if b == 0 || q + b == |s| || s[q + b] != '.' then 0
      else
        var c := DigitRun(s, q + b + 1);
        if c == 0 then 0 else a + b + c + 2
  }

  /** `m` is three non-empty runs of digits separated by dots. */
  predicate IsTriple(m: string) {
    var fs := Fields(m, '.');
    |fs| == 3 && forall i :: 0 <= i < 3 ==> |fs[i]| >= 1 && AllDigits(fs[i])
  }

  /** A run of digits inside `s`, taken out: digits only, so no dot. */
  lemma RunDigits(s: string, i: nat, n: nat)
    requires i + n <= |s| && forall j :: i <= j < i + n ==> IsDigit(s[j])
    ensures AllDigits(s[i..i + n]) && '.' !in s[i..i + n]
  {
    var t := s[i..i + n];
    forall j | 0 <= j < |t| ensures IsDigit(t[j]) && t[j] != '.' {
      assert t[j] == s[i + j];
    }
  }

  /** Three pieces of `s` with a dot after the first and after the second. */
  lemma DottedSlice(s: string, p: nat, a: nat, b: nat, c: nat)
    requires p + a + b + c + 2 <= |s| && s[p + a] == '.' && s[p + a + 1 + b] == '.'
    ensures s[p..p + a + b + c + 2] ==
      s[p..p + a] + "." + s[p + a + 1..p + a + 1 + b] + "." + s[p + a + b + 2..p + a + b + c + 2]
  {
    var q := p + a + 1;
    var r := q + b + 1;
    var e := r + c;
    assert s[p..e] == s[p..p + a] + s[p + a..q] + s[q..q + b] + s[q + b..r] + s[r..e];
    assert s[p + a..q] == ".";
    assert s[q + b..r] == ".";
  }

  /** Every match is a dotted triple of numbers. */
  lemma MatchIsTriple(s: string, p: nat)
    requires p <= |s| && MatchLen(s, p) > 0
    ensures IsTriple(s[p..p + MatchLen(s, p)])
  {
    var x, y, z := MatchParts(s, p);
    TripleOfParts(x, y, z);
  }

  /** A match is three runs of digits joined by dots. */
  lemma MatchParts(s: string, p: nat) returns (x: string, y: string, z: string)
    requires p <= |s| && MatchLen(s, p) > 0
    ensures s[p..p + MatchLen(s, p)] == x + "." + y + "." + z
    ensures |x| >= 1 && |y| >= 1 && |z| >= 1 && AllDigits(x) && AllDigits(y) && AllDigits(z)
  {
    var a := DigitRun(s, p);
    assert a > 0 && p + a < |s| && s[p + a] == '.';
    var b := DigitRun(s, p + a + 1);
    assert b > 0 && p + a + 1 + b < |s| && s[p + a + 1 + b] == '.';
    var c := DigitRun(s, p + a + b + 2);
    assert c > 0;
    assert MatchLen(s, p) == a + b + c + 2;
    x, y, z := s[p..p + a], s[p + a + 1..p + a + 1 + b], s[p + a + b + 2..p + a + b + c + 2];
    RunDigits(s, p, a);
    RunDigits(s, p + a + 1, b);
    RunDigits(s, p + a + b + 2, c);
    DottedSlice(s, p, a, b, c);
  }

  /** Three runs of digits joined by dots form a triple. */
  lemma TripleOfParts(x: string, y: string, z: string)
    requires |x| >= 1 && |y| >= 1 && |z| >= 1 && AllDigits(x) && AllDigits(y) && AllDigits(z)
    ensures IsTriple(x + "." + y + "." + z)
  {
    RunDigits(x, 0, |x|);
    RunDigits(y, 0, |y|);
    RunDigits(z, 0, |z|);
    assert x[0..|x|] == x && y[0..|y|] == y && z[0..|z|] == z;
    JoinThree(x, y, z, ".");
    FieldsOfJoin([x, y, z], '.');
    var fs := Fields(x + "." + y + "." + z, '.');
    assert fs == [x, y, z];
    assert fs[0] == x && fs[1] == y && fs[2] == z;
  }

  /** The length of the match at every position of `s` (0: none). */
  function MatchTable(s: string): (t: seq<nat>)
    ensures |t| == |s|
    ensures forall q :: 0 <= q < |s| ==> t[q] == MatchLen(s, q)
  {
    seq(|s|, q requires 0 <= q < |s| => MatchLen(s, q))
  }

  /** No match runs past the end of the text. */
  predicate Fits(t: seq<nat>) {
    forall q :: 0 <= q < |t| ==> q + t[q] <= |t|
  }

  /** The starting positions of the matches that `scan` finds from `p` on,
      given the table of match lengths: leftmost first, each search resuming
      where the previous match ended. */
  function ScanFrom(t: seq<nat>, p: nat): (r: seq<nat>)
    requires p <= |t| && Fits(t)
    ensures forall i :: 0 <= i < |r| ==> p <= r[i] < |t| && t[r[i]] > 0
    decreases |t| - p
  {
    if p == |t| then []
    else if t[p] > 0 then [p] + ScanFrom(t, p + t[p])
    else ScanFrom(t, p + 1)
  }

  /** The matches in `r` come in order, each ending at or before the start
      of the next. */
  predicate Ordered(t: seq<nat>, r: seq<nat>)
    requires forall i :: 0 <= i < |r| ==> r[i] < |t|
  {
    forall i, j :: 0 <= i < j < |r| ==> r[i] + t[r[i]] <= r[j]
  }

  /** Position `q` lies inside one of the matches in `r`. */
  predicate Within(t: seq<nat>, r: seq<nat>, q: nat)
    requires forall i :: 0 <= i < |r| ==> r[i] < |t|
  {
    exists i :: 0 <= i < |r| && r[i] <= q < r[i] + t[r[i]]
  }

  /** Every position from `p` on where a match starts lies inside one of the
      matches in `r`. */
  predicate Covers(t: seq<nat>, p: nat, r: seq<nat>)
    requires forall i :: 0 <= i < |r| ==> r[i] < |t|
  {
    forall q {:trigger Within(t, r, q)} :: p <= q < |t| && t[q] > 0 ==> Within(t, r, q)
  }

  /** What `scan` finds: every position found starts a match, the matches
      come in order without overlapping, no match starts before the first
      one found or after the end of the last one, and every position where
      a match starts lies inside a match found, so the search skipped no
      match it could have taken. */
  lemma ScanSpec(t: seq<nat>, p: nat)
    requires p <= |t| && Fits(t)
    ensures Ordered(t, ScanFrom(t, p))
    ensures ScanFrom(t, p) == [] ==> forall q :: p <= q < |t| ==> t[q] == 0
    ensures ScanFrom(t, p) != [] ==> forall q :: p <= q < ScanFrom(t, p)[0] ==> t[q] == 0
    ensures ScanFrom(t, p) != [] ==> var last := ScanFrom(t, p)[|ScanFrom(t, p)| - 1];
      forall q :: last + t[last] <= q < |t| ==> t[q] == 0
    ensures Covers(t, p, ScanFrom(t, p))
  {
    ScanOrdered(t, p);
    ScanNoneBefore(t, p);
    ScanNoneAfter(t, p);
    ScanCovers(t, p);
  }

  /** Each match found ends at or before the start of every later one. */
  lemma {:induction false} ScanOrdered(t: seq<nat>, p: nat)
    requires p <= |t| && Fits(t)
    ensures Ordered(t, ScanFrom(t, p))
    decreases |t| - p
  {
    if p < |t| {
      if t[p] > 0 {
        var r, rest := ScanFrom(t, p), ScanFrom(t, p + t[p]);
        ScanOrdered(t, p + t[p]);
        assert r == [p] + rest;
        forall i, j | 0 <= i < j < |r| ensures r[i] + t[r[i]] <= r[j] {
          assert r[j] == rest[j - 1];
          if i > 0 {
            assert r[i] == rest[i - 1];
          }
        }
      } else {
        ScanOrdered(t, p + 1);
      }
    }
  }

  /** No match starts before the first one found, and none at all when
      nothing is found. */
  lemma {:induction false} ScanNoneBefore(t: seq<nat>, p: nat)
    requires p <= |t| && Fits(t)
    ensures ScanFrom(t, p) == [] ==> forall q :: p <= q < |t| ==> t[q] == 0
    ensures ScanFrom(t, p) != [] ==> forall q :: p <= q < ScanFrom(t, p)[0] ==> t[q] == 0
    decreases |t| - p
  {
    if p < |t| && t[p] == 0 {
      ScanNoneBefore(t, p + 1);
    }
  }

  /** Every position from `p` on where a match starts lies inside one of
      the matches found. */
  lemma {:induction false} ScanCovers(t: seq<nat>, p: nat)
    requires p <= |t| && Fits(t)
    ensures Covers(t, p, ScanFrom(t, p))
    decreases |t| - p
  {
    if p < |t| {
      if t[p] > 0 {
        ScanCovers(t, p + t[p]);
        CoversCons(t, p, ScanFrom(t, p), ScanFrom(t, p + t[p]));
      } else {
        ScanCovers(t, p + 1);
        assert ScanFrom(t, p) == ScanFrom(t, p + 1);
      }
    }
  }

  /** A match at `p` followed by matches covering everything after it covers
      everything from `p` on. */
  lemma CoversCons(t: seq<nat>, p: nat, r: seq<nat>, rest: seq<nat>)
    requires p < |t| && t[p] > 0 && p + t[p] <= |t|
    requires forall i :: 0 <= i < |rest| ==> rest[i] < |t|
    requires Covers(t, p + t[p], rest)
    requires r == [p] + rest
    ensures Covers(t, p, r)
  {
    forall q | p <= q < |t| && t[q] > 0 ensures Within(t, r, q) {
      if q < p + t[p] {
        assert r[0] <= q < r[0] + t[r[0]];
      } else {
        assert Within(t, rest, q);
        var i :| 0 <= i < |rest| && rest[i] <= q < rest[i] + t[rest[i]];
        assert r[i + 1] == rest[i];
      }
    }
  }

  /** No match starts after the end of the last match found. */
  lemma {:induction false} ScanNoneAfter(t: seq<nat>, p: nat)
    requires p <= |t| && Fits(t)
    ensures ScanFrom(t, p) != [] ==> var last := ScanFrom(t, p)[|ScanFrom(t, p)| - 1];
      forall q :: last + t[last] <= q < |t| ==> t[q] == 0
    decreases |t| - p
  {
    if p < |t| {
      if t[p] > 0 {
        var r, rest := ScanFrom(t, p), ScanFrom(t, p + t[p]);
        assert r == [p] + rest;
        if rest == [] {
          ScanNoneBefore(t, p + t[p]);
        } else {
          ScanNoneAfter(t, p + t[p]);
          assert r[|r| - 1] == rest[|rest| - 1];
        }
      } else {
        ScanNoneAfter(t, p + 1);
      }
    }
  }

  /** Where the last match `scan` finds starts, if there is one: the last
      position of the scan, a match after which no other match starts. */
  function LastStart(t: seq<nat>): (r: Option<nat>)
    requires Fits(t)
    ensures r.None? <==> forall q :: 0 <= q < |t| ==> t[q] == 0
    ensures r.None? <==> ScanFrom(t, 0) == []
    ensures r.Some? ==> r.value == ScanFrom(t, 0)[|ScanFrom(t, 0)| - 1]
    ensures r.Some? ==> r.value < |t| && t[r.value] > 0
    ensures r.Some? ==> forall q :: r.value + t[r.value] <= q < |t| ==> t[q] == 0
  {
    ScanNoneBefore(t, 0);
    ScanNoneAfter(t, 0);
    var ps := ScanFrom(t, 0);
    if ps == [] then None else Some(ps[|ps| - 1])
  }

  /** `m` is the match that starts at `p`. */
  predicate MatchAt(s: string, p: nat, m: string) {
    p + |m| <= |s| && |m| > 0 && MatchLen(s, p) == |m| && s[p..p + |m|] == m
  }

  /** `scan(...).last`: the text of the last match, if any. */
  function LastMatch(s: string): (r: Option<string>)
    ensures r.None? <==> forall q :: 0 <= q < |s| ==> MatchLen(s, q) == 0
    ensures r.None? <==> LastStart(MatchTable(s)).None?
    ensures r.Some? ==> LastStart(MatchTable(s)).Some? && MatchAt(s, LastStart(MatchTable(s)).value, r.value)
    ensures r.Some? ==> IsTriple(r.value)
    ensures r.Some? ==>
      exists p: nat :: MatchAt(s, p, r.value) && (forall q :: p + |r.value| <= q < |s| ==> MatchLen(s, q) == 0)
  {
    match LastStart(MatchTable(s))
    case None => None
    case Some(p) =>
      LastMatchAt(s, p);
      Some(s[p..p + MatchLen(s, p)])
  }

  /** The last start of the scan begins a dotted triple after whose end no
      match starts. */
  lemma LastMatchAt(s: string, p: nat)
    requires LastStart(MatchTable(s)) == Some(p)
    ensures p < |s| && MatchLen(s, p) > 0
    ensures MatchAt(s, p, s[p..p + MatchLen(s, p)]) && IsTriple(s[p..p + MatchLen(s, p)])
    ensures var m := s[p..p + MatchLen(s, p)];
      exists p': nat :: MatchAt(s, p', m) && (forall q :: p' + |m| <= q < |s| ==> MatchLen(s, q) == 0)
  {
    var t := MatchTable(s);
    var m := s[p..p + MatchLen(s, p)];
    assert t[p] == MatchLen(s, p) == |m|;
    MatchIsTriple(s, p);
    forall q | p + |m| <= q < |s| ensures MatchLen(s, q) == 0 {
      assert t[q] == 0;
    }
    assert MatchAt(s, p, m) && (forall q :: p + |m| <= q < |s| ==> MatchLen(s, q) == 0);
  }

  /** puppetserver_version_on: the last dotted triple in the stripped
      output, when the probe exited 0. */
  function PuppetserverVersionFrom(o: Output): (r: Option<string>)
    ensures r.Some? ==> o.exitCode == 0 && IsTriple(r.value)
    ensures r.Some? ==>
      (LastStart(MatchTable(Strip(o.stdout))).Some? &&
       MatchAt(Strip(o.stdout), LastStart(MatchTable(Strip(o.stdout))).value, r.value))
    ensures o.exitCode == 0 && r.None? ==>
      (forall q :: 0 <= q < |Strip(o.stdout)| ==> MatchLen(Strip(o.stdout), q) == 0)
    ensures o.exitCode != 0 ==> r.None?
  {
    if o.exitCode == 0 then LastMatch(Strip(o.stdout)) else None
  }

  /** The run of digits at `i` is exactly `n` long when `n` digits stand
      there and no digit follows them. */
  lemma {:induction false} DigitRunExact(s: string, i: nat, n: nat)
    requires i + n <= |s| && forall j :: i <= j < i + n ==> IsDigit(s[j])
    requires i + n == |s| || !IsDigit(s[i + n])
    ensures DigitRun(s, i) == n
    decreases n
  {
    if n > 0 {
      DigitRunExact(s, i + 1, n - 1);
    }
  }

  /** The run of digits at `i` is at least `n` long when `n` digits stand there. */
  lemma {:induction false} DigitRunAtLeast(s: string, i: nat, n: nat)
    requires i + n <= |s| && forall j :: i <= j < i + n ==> IsDigit(s[j])
    ensures DigitRun(s, i) >= n
    decreases n
  {
    if n > 0 {
      DigitRunAtLeast(s, i + 1, n - 1);
    }
  }

  /** Conversely, three runs of digits joined by dots at `p` are a match
      there: the first two are taken as they are, and the third as the
      whole run of digits that starts where it does. */
  lemma TripleMatches(s: string, p: nat, x: string, y: string, z: string)
    requires |x| >= 1 && |y| >= 1 && |z| >= 1 && AllDigits(x) && AllDigits(y) && AllDigits(z)
    requires OccursAt(s, x, p) && p + |x| < |s| && s[p + |x|] == '.'
    requires OccursAt(s, y, p + |x| + 1) && p + |x| + 1 + |y| < |s| && s[p + |x| + 1 + |y|] == '.'
    requires OccursAt(s, z, p + |x| + |y| + 2)
    ensures MatchLen(s, p) == |x| + |y| + 2 + DigitRun(s, p + |x| + |y| + 2)
    ensures MatchLen(s, p) >= |x| + |y| + |z| + 2
  {
    var q := p + |x| + 1;
    var e := q + |y| + 1;
    DigitsAt(s, x, p);
    DigitRunExact(s, p, |x|);
    DigitsAt(s, y, q);
    DigitRunExact(s, q, |y|);
    DigitsAt(s, z, e);
    DigitRunAtLeast(s, e, |z|);
  }

  /** The digits of `x`, found at `i` in `s`. */
  lemma DigitsAt(s: string, x: string, i: nat)
    requires AllDigits(x) && OccursAt(s, x, i)
    ensures forall j :: i <= j < i + |x| ==> IsDigit(s[j])
  {
    forall j | i <= j < i + |x| ensures IsDigit(s[j]) {
      assert s[j] == s[i..i + |x|][j - i] == x[j - i];
    }
  }

  /** A worked case: the scan of `1.2.3.4` resumes after `1.2.3` and finds
      nothing more, so `.last` is `1.2.3` and not `2.3.4`. */
  lemma LastMatchOverlapping(s: string)
    requires s == "1.2.3.4"
    ensures LastMatch(s) == Some("1.2.3")
  {
    var t := MatchTable(s);
    assert DigitRun(s, 6) == 1;
    assert DigitRun(s, 5) == 0;
    assert DigitRun(s, 4) == 1;
    assert DigitRun(s, 2) == 1;
    assert DigitRun(s, 0) == 1;
    assert t[0] == MatchLen(s, 0) == 5;
    assert t[5] == MatchLen(s, 5) == 0;
    assert t[6] == MatchLen(s, 6) == 0;
    ScanOfTable(t);
    assert s[0..5] == "1.2.3";
  }

  /** A table of seven positions with a match of length 5 at 0 and none at
      5 and 6 is scanned as one match, at 0. */
  lemma ScanOfTable(t: seq<nat>)
    requires |t| == 7 && Fits(t)
    requires t[0] == 5 && t[5] == 0 && t[6] == 0
    ensures ScanFrom(t, 0) == [0]
  {
    assert ScanFrom(t, 7) == [];
    assert ScanFrom(t, 6) == [];
    assert ScanFrom(t, 5) == [];
  }

  /** A worked case: a version with a pre-release suffix is cut at the third number. */
  lemma MatchOfSuffixed(s: string)
    requires s == "6.0.1-SNAPSHOT"
    ensures MatchLen(s, 0) == 5
  {
    assert DigitRun(s, 5) == 0;
    assert DigitRun(s, 4) == 1;
    assert DigitRun(s, 2) == 1;
    assert DigitRun(s, 0) == 1;
  }
}

/** The puppet collection resolvers (puppet_utils.rb:75-126): from a version
    string, or 'latest', to the name of a release collection. */
module Collections {
  import opened RubyText

  /** `version.split('.').map(&:to_i)` */
  function VersionFields(version: string): (r: seq<int>)
    ensures |r| == |Split(version, '.')|
    ensures forall i :: 0 <= i < |r| ==> r[i] == ToI(Split(version, '.')[i])
  {
    MapToI(Split(version, '.'))
  }

  function MapToI(xs: seq<string>): (r: seq<int>)
    ensures |r| == |xs| && forall i :: 0 <= i < |xs| ==> r[i] == ToI(xs[i])
  {
    if xs == [] then [] else [ToI(xs[0])] + MapToI(xs[1..])
  }

  // ------------------------------------------------------------------
  // version_is_less is not part of this model; it stands in here as the
  // numeric lexicographic order on the dotted fields, a missing field
  // counting as 0. The fixed version on the right is given by its fields.

  function Head0(a: seq<int>): int { if a == [] then 0 else a[0] }
  function Tail(a: seq<int>): seq<int> { if a == [] then [] else a[1..] }

  function LexLess(a: seq<int>, b: seq<int>): bool
    decreases |a| + |b|
  {
    if a == [] && b == [] then false
    else if Head0(a) < Head0(b) then true
    else if Head0(a) > Head0(b) then false
    else LexLess(Tail(a), Tail(b))
  }

  predicate VersionIsLess(a: string, b: seq<int>) {
    LexLess(VersionFields(a), b)
  }

  /** The two fixed versions compared against, by their fields: 5.5.4 and 5.99. */
  const V554: seq<int> := [5, 5, 4]
  const V599: seq<int> := [5, 99]

  lemma {:induction false} LexLessIrreflexive(a: seq<int>)
    ensures !LexLess(a, a)
    decreases |a|
  {
    if a != [] { LexLessIrreflexive(a[1..]); }
  }

  lemma {:induction false} LexLessTransitive(a: seq<int>, b: seq<int>, c: seq<int>)
    requires LexLess(a, b) && LexLess(b, c)
    ensures LexLess(a, c)
    decreases |a| + |b| + |c|
  {
    if Head0(a) == Head0(b) && Head0(b) == Head0(c) {
      LexLessTransitive(Tail(a), Tail(b), Tail(c));
    }
  }

  /** Comparing a three-field version with a fixed one, field by field. */
  lemma LexLessThree(x: int, y: int, z: int, b: seq<int>)
    requires |b| <= 3
    ensures LexLess([x, y, z], b) <==>
      x < Head0(b) || (x == Head0(b) && (y < Head0(Tail(b)) || (y == Head0(Tail(b)) && z < Head0(Tail(Tail(b))))))
  {
    var b1, b2 := Tail(b), Tail(Tail(b));
    assert Tail([x, y, z]) == [y, z] && Tail([y, z]) == [z] && Tail([z]) == [];
    assert Tail(b2) == [];
    assert !LexLess([], []);
    assert LexLess([z], b2) <==> z < Head0(b2);
  }

  /** Splitting a join of non-empty-ended, dot-free parts gives the parts. */
  lemma SplitOfJoin(xs: seq<string>)
    requires |xs| >= 1 && xs[|xs| - 1] != ""
    requires forall i :: 0 <= i < |xs| ==> '.' !in xs[i]
    ensures Split(Join(xs, "."), '.') == xs
  {
    FieldsOfJoin(xs, '.');
  }

  // ------------------------------------------------------------------
  // get_puppet_collection (deprecated)

  /** get_puppet_collection: PC1 for 'latest' and below 5.5.4, puppet5 from
      5.5.4 up to (not including) 5.99, puppet6 from 5.99 on. */
  function GetPuppetCollection(agentVersion: string): (r: string)
    ensures r == "PC1" || r == "puppet5" || r == "puppet6"
    ensures agentVersion == "latest" ==> r == "PC1"
    ensures r == "puppet5" <==>
      agentVersion != "latest" && !VersionIsLess(agentVersion, V554) && VersionIsLess(agentVersion, V599)
    ensures r == "puppet6" <==> agentVersion != "latest" && !VersionIsLess(agentVersion, V599)
  {
    if agentVersion != "latest" then
      if !VersionIsLess(agentVersion, V554) && VersionIsLess(agentVersion, V599) then "puppet5"
      else if !VersionIsLess(agentVersion, V599) then "puppet6"
      else "PC1"
    else "PC1"
  }

  lemma LessThan554(v: string, x: int, y: int, z: int)
    requires VersionFields(v) == [x, y, z]
    ensures VersionIsLess(v, V554) <==> x < 5 || (x == 5 && (y < 5 || (y == 5 && z < 4)))
  {
    assert Tail(V554) == [5, 4] && Tail([5, 4]) == [4];
    LexLessThree(x, y, z, V554);
  }

  lemma LessThan599(v: string, x: int, y: int, z: int)
    requires VersionFields(v) == [x, y, z]
    ensures VersionIsLess(v, V599) <==> x < 5 || (x == 5 && (y < 99 || (y == 99 && z < 0)))
  {
    assert Tail(V599) == [99] && Tail([99]) == [];
    LexLessThree(x, y, z, V599);
  }

  lemma NotLatest(v: string)
    requires |VersionFields(v)| == 3
    ensures v != "latest"
  {
    ThreeFieldsHaveDot(v);
    var i :| 0 <= i < |v| && v[i] == '.';
    assert v != "latest" by {
      if |v| == 6 {
        assert i < 6;
      }
    }
  }

  lemma ThreeFieldsHaveDot(v: string)
    requires |VersionFields(v)| == 3
    ensures '.' in v
  {
    if '.' !in v {
      FieldsOfPlain(v, '.');
    }
  }

  /** For a version of three non-negative fields x.y.z, the buckets are
      x.y.z >= 5.99 for puppet6 and 5.5.4 <= x.y.z < 5.99 for puppet5. */
  lemma GetPuppetCollectionBuckets(agentVersion: string, x: int, y: int, z: int)
    requires VersionFields(agentVersion) == [x, y, z]
    requires x >= 0 && y >= 0 && z >= 0
    ensures GetPuppetCollection(agentVersion) == "puppet6" <==> x > 5 || (x == 5 && y >= 99)
    ensures GetPuppetCollection(agentVersion) == "puppet5" <==>
      x == 5 && 5 <= y < 99 && (y > 5 || z >= 4)
    ensures GetPuppetCollection(agentVersion) == "PC1" <==>
      x < 5 || (x == 5 && (y < 5 || (y == 5 && z < 4)))
  {
    LessThan554(agentVersion, x, y, z);
    LessThan599(agentVersion, x, y, z);
    NotLatest(agentVersion);
  }

  // ------------------------------------------------------------------
  // puppet_collection_for_puppet_agent_version / _for_puppet_version

  /** The major version a collection is named after: y >= 99 marks a
      pre-release of the next major. */
  function BumpedMajor(x: int, y: int): int { if y >= 99 then x + 1 else x }

  /** The shared shape of the two resolvers; `legacyMajor` is the major
      version that still maps to 'pc1'. */
  function CollectionFor(version: string, legacyMajor: int): (r: Option<string>)
    ensures Strip(version) == "latest" ==> r == Some("puppet")
    ensures Strip(version) != "latest" && |Split(version, '.')| < 3 ==> r == None
    ensures Strip(version) != "latest" && |Split(version, '.')| >= 3 ==>
      var x, y := ToI(Split(version, '.')[0]), ToI(Split(version, '.')[1]);
      && (x == legacyMajor ==> r == Some("pc1"))
      && (x != legacyMajor && BumpedMajor(x, y) > 4 ==>
            r == Some("puppet" + NatToString(BumpedMajor(x, y))))
      && (x != legacyMajor && BumpedMajor(x, y) <= 4 ==> r == None)
  {
    if Strip(version) == "latest" then Some("puppet")
    else
      var fs := Split(version, '.');
      if |fs| < 3 then None
      else
        var x, y := ToI(fs[0]), ToI(fs[1]);
        if x == legacyMajor then Some("pc1")
        else
          var major := BumpedMajor(x, y);
          if major > 4 then Some("puppet" + NatToString(major)) else None
  }

  /** puppet_collection_for_puppet_agent_version: 'pc1' for agent 1.x. */
  function CollectionForAgentVersion(agentVersion: string): Option<string> {
    CollectionFor(agentVersion, 1)
  }

  /** puppet_collection_for_puppet_version: 'pc1' for puppet 4.x. */
  function CollectionForPuppetVersion(puppetVersion: string): Option<string> {
    CollectionFor(puppetVersion, 4)
  }

  /** The two resolvers differ only when the major field is 1 or 4. */
  lemma ResolversAgreeOffLegacy(version: string)
    requires |Split(version, '.')| >= 3 ==> ToI(Split(version, '.')[0]) != 1 && ToI(Split(version, '.')[0]) != 4
    ensures CollectionForAgentVersion(version) == CollectionForPuppetVersion(version)
  {
  }

  // ------------------------------------------------------------------
  // Worked cases

  /** A version that starts with a digit is not 'latest' after stripping. */
  lemma DigitStartNotLatest(s: string)
    requires |s| > 0 && IsDigit(s[0])
    ensures Strip(s) != "latest"
  {
    assert LStrip(s) == s;
    RStripSpec(s);
    var r := Strip(s);
    assert |r| > 0 && r[0] == s[0];
  }

  lemma Split3(a: string, b: string, c: string)
    requires '.' !in a && '.' !in b && '.' !in c && c != ""
    ensures Split(a + "." + b + "." + c, '.') == [a, b, c]
  {
    JoinThree(a, b, c, ".");
    SplitOfJoin([a, b, c]);
  }

  /** A dotted version of three fields whose first starts with a digit. */
  lemma ThreeFields(v: string, a: string, b: string, c: string)
    requires v == a + "." + b + "." + c
    requires '.' !in a && '.' !in b && '.' !in c && c != ""
    requires |a| > 0 && IsDigit(a[0])
    ensures Split(v, '.') == [a, b, c]
    ensures Strip(v) != "latest"
  {
    Split3(a, b, c);
    DigitStartNotLatest(v);
  }

  lemma SkipSpaceDigitStart(s: string)
    requires |s| > 0 && IsDigit(s[0])
    ensures SkipSpace(s) == s
  {
    assert !IsSpace(s[0]);
  }

  lemma LeadingDigitsTwo(c: char, d: char)
    requires IsDigit(c) && IsDigit(d)
    ensures LeadingDigits([c]) == [c] && LeadingDigits([c, d]) == [c, d]
  {
    assert [c, d][1..] == [d];
  }

  lemma DecimalTwo(c: char, d: char)
    requires IsDigit(c) && IsDigit(d)
    ensures DecimalValue([c]) == DigitValue(c)
    ensures DecimalValue([c, d]) == 10 * DigitValue(c) + DigitValue(d)
  {
    assert [c, d][..1] == [c];
  }

  /** One- and two-digit fields read as their values. */
  lemma ToIDigits(c: char, d: char)
    requires IsDigit(c) && IsDigit(d)
    ensures ToI([c]) == DigitValue(c)
    ensures ToI([c, d]) == 10 * DigitValue(c) + DigitValue(d)
  {
    SkipSpaceDigitStart([c]);
    SkipSpaceDigitStart([c, d]);
    LeadingDigitsTwo(c, d);
    DecimalTwo(c, d);
  }

  /** The first two fields of `v` read as x and y. */
  lemma FirstFields(v: string, a: string, b: string, x: int, y: int)
    requires |Split(v, '.')| >= 2 && Split(v, '.')[0] == a && Split(v, '.')[1] == b
    requires ToI(a) == x && ToI(b) == y
    ensures ToI(Split(v, '.')[0]) == x && ToI(Split(v, '.')[1]) == y
  {
  }

  /** Resolving a version whose first two fields read as x and y. */
  lemma CollectionForThree(version: string, legacyMajor: int, x: int, y: int)
    requires Strip(version) != "latest" && |Split(version, '.')| >= 3
    requires ToI(Split(version, '.')[0]) == x && ToI(Split(version, '.')[1]) == y
    ensures CollectionFor(version, legacyMajor) ==
      if x == legacyMajor then Some("pc1")
      else if BumpedMajor(x, y) > 4 then Some("puppet" + NatToString(BumpedMajor(x, y)))
      else None
  {
  }

  lemma DigitName(n: nat)
    requires n < 10
    ensures NatToString(n) == [DigitChar(n)]
  {
  }

  lemma Puppet5Name()
    ensures "puppet" + NatToString(5) == "puppet5"
  {
    DigitName(5);
    assert DigitChar(5) == '5';
  }

  lemma Puppet6Name()
    ensures "puppet" + NatToString(6) == "puppet6"
  {
    DigitName(6);
    assert DigitChar(6) == '6';
  }

  /** 'latest' with any NUL or whitespace around it is the 'puppet'
      collection, for both resolvers. */
  lemma CollectionLatest(pre: string, post: string)
    requires forall i :: 0 <= i < |pre| ==> IsStripped(pre[i])
    requires forall i :: 0 <= i < |post| ==> IsStripped(post[i])
    ensures CollectionForAgentVersion(pre + "latest" + post) == Some("puppet")
    ensures CollectionForPuppetVersion(pre + "latest" + post) == Some("puppet")
  {
    StripSurrounded(pre, "latest", post);
  }

  /** Agent 1.x is still 'pc1'. */
  lemma AgentLegacy(v: string)
    requires v == "1.2.3"
    ensures CollectionForAgentVersion(v) == Some("pc1")
  {
    ThreeFields(v, "1", "2", "3");
    ToIDigits('1', '0');
    ToIDigits('2', '0');
    FirstFields(v, "1", "2", 1, 2);
    CollectionForThree(v, 1, 1, 2);
  }

  /** A minor version of 99 or more belongs to the next major. */
  lemma AgentPrerelease(v: string)
    requires v == "5.99.0"
    ensures CollectionForAgentVersion(v) == Some("puppet6")
  {
    ThreeFields(v, "5", "99", "0");
    ToIDigits('5', '0');
    ToIDigits('9', '9');
    FirstFields(v, "5", "99", 5, 99);
    CollectionForThree(v, 1, 5, 99);
    Puppet6Name();
  }

  /** Agent 4.x has no collection. */
  lemma AgentFour(v: string)
    requires v == "4.3.0"
    ensures CollectionForAgentVersion(v) == None
  {
    ThreeFields(v, "4", "3", "0");
    ToIDigits('4', '0');
    ToIDigits('3', '0');
    FirstFields(v, "4", "3", 4, 3);
    CollectionForThree(v, 1, 4, 3);
  }

  /** Puppet 4.x is 'pc1'. */
  lemma PuppetFour(v: string)
    requires v == "4.0.0"
    ensures CollectionForPuppetVersion(v) == Some("pc1")
  {
    ThreeFields(v, "4", "0", "0");
    ToIDigits('4', '0');
    ToIDigits('0', '0');
    FirstFields(v, "4", "0", 4, 0);
    CollectionForThree(v, 4, 4, 0);
  }

  /** Puppet 6.x is 'puppet6'. */
  lemma PuppetSix(v: string)
    requires v == "6.0.0"
    ensures CollectionForPuppetVersion(v) == Some("puppet6")
  {
    ThreeFields(v, "6", "0", "0");
    ToIDigits('6', '0');
    ToIDigits('0', '0');
    FirstFields(v, "6", "0", 6, 0);
    CollectionForThree(v, 4, 6, 0);
    Puppet6Name();
  }

  /** The legacy check comes before the pre-release bump: 4.99.0 is 'pc1'
      for the puppet gem but 'puppet5' for the agent. */
  lemma LegacyBeforeBump(v: string)
    requires v == "4.99.0"
    ensures CollectionForPuppetVersion(v) == Some("pc1")
    ensures CollectionForAgentVersion(v) == Some("puppet5")
  {
    ThreeFields(v, "4", "99", "0");
    ToIDigits('4', '0');
    ToIDigits('9', '9');
    FirstFields(v, "4", "99", 4, 99);
    CollectionForThree(v, 4, 4, 99);
    CollectionForThree(v, 1, 4, 99);
    Puppet5Name();
  }

  /** Only missing fields give nothing: a trailing dot leaves two fields. */
  lemma TrailingDot(v: string)
    requires v == "5.0."
    ensures CollectionForAgentVersion(v) == None
  {
    var xs := ["5", "0", ""];
    assert Join(xs, ".") == v by {
      assert xs[1..] == ["0", ""] && xs[1..][1..] == [""];
      assert Join(["0", ""], ".") == "0.";
    }
    FieldsOfJoin(xs, '.');
    assert DropTrailingEmpty(xs) == DropTrailingEmpty(["5", "0"]);
    assert |Split(v, '.')| == 2;
  }

  lemma ToIOfEmpty()
    ensures ToI("") == 0
  {
  }

  lemma ToIOfX()
    ensures ToI("x") == 0
  {
    ToIOfLetter("x");
  }

  lemma ToIOfLetter(s: string)
    requires |s| == 1 && !IsSpace(s[0]) && !IsDigit(s[0]) && s[0] != '-' && s[0] != '+'
    ensures ToI(s) == 0
  {
    assert SkipSpace(s) == s;
    assert LeadingDigits(s) == "";
  }

  /** A non-numeric or empty minor field reads as 0 instead of going missing. */
  lemma NonNumericField(v: string)
    requires v == "5.x.0"
    ensures CollectionForAgentVersion(v) == Some("puppet5")
  {
    ThreeFields(v, "5", "x", "0");
    ToIDigits('5', '0');
    ToIOfX();
    FirstFields(v, "5", "x", 5, 0);
    CollectionForThree(v, 1, 5, 0);
    Puppet5Name();
  }

  lemma EmptyField(v: string)
    requires v == "5..0"
    ensures CollectionForAgentVersion(v) == Some("puppet5")
  {
    ThreeFields(v, "5", "", "0");
    ToIDigits('5', '0');
    ToIOfEmpty();
    FirstFields(v, "5", "", 5, 0);
    CollectionForThree(v, 1, 5, 0);
    Puppet5Name();
  }
}

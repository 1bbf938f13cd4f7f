/** Host-type normalisation: `normalize_type` maps a free-form host label to
    one of the three canonical types by looking for the type's name as a
    whole dash-delimited token (puppet_utils.rb:22-33). */
module HostTypes {
  import opened RubyText

  datatype HostType = Foss | Pe | Aio {
    /** The canonical name, as used to build handler names. */
    function Name(): string {
      match this
      case Foss => "foss"
      case Pe => "pe"
      case Aio => "aio"
    }
  }

  /** The regular expression `(\A|-)tag(\Z|-)` matches `s` with `tag` at
      index `i`: the tag starts the string or follows a dash, and ends the
      string, stands just before a final newline, or is followed by a dash. */
  predicate TokenAt(s: string, tag: string, i: int) {
    && OccursAt(s, tag, i)
    && (i == 0 || s[i - 1] == '-')
    && (i + |tag| == |s| || s[i + |tag|] == '-' || (i + |tag| == |s| - 1 && s[|s| - 1] == '\n'))
  }

  function HasTokenFrom(s: string, tag: string, i: nat): (r: bool)
    ensures r <==> exists k :: i <= k && TokenAt(s, tag, k)
    decreases |s| - i
  {
    if i + |tag| > |s| then false
    else if TokenAt(s, tag, i) then true
    else HasTokenFrom(s, tag, i + 1)
  }

  /** `s =~ /(\A|-)tag(\Z|-)/` */
  function HasToken(s: string, tag: string): (r: bool)
    ensures r <==> exists k :: TokenAt(s, tag, k)
  {
    HasTokenFrom(s, tag, 0)
  }

  /** normalize_type: the first of foss, pe, aio (in that priority) whose
      pattern matches, or nothing. */
  function NormalizeType(name: string): (r: Option<HostType>)
    ensures r == Some(Foss) <==> HasToken(name, "foss")
    ensures r == Some(Pe) <==> !HasToken(name, "foss") && HasToken(name, "pe")
    ensures r == Some(Aio) <==> !HasToken(name, "foss") && !HasToken(name, "pe") && HasToken(name, "aio")
    ensures r == None <==> !HasToken(name, "foss") && !HasToken(name, "pe") && !HasToken(name, "aio")
  {
    if HasToken(name, "foss") then Some(Foss)
    else if HasToken(name, "pe") then Some(Pe)
    else if HasToken(name, "aio") then Some(Aio)
    else None
  }

  // ------------------------------------------------------------------
  // Reference definition: split the label on dashes and look the names up.

  /** The first of foss, pe, aio that is one of the dash-separated fields. */
  function TokenType(name: string): Option<HostType> {
    var fs := Fields(name, '-');
    if "foss" in fs then Some(Foss)
    else if "pe" in fs then Some(Pe)
    else if "aio" in fs then Some(Aio)
    else None
  }

  /** `f` is a field of `s` that starts at index `i`. */
  predicate FieldAt(s: string, f: string, i: int, d: char) {
    && OccursAt(s, f, i)
    && (i == 0 || s[i - 1] == d)
    && (i + |f| == |s| || s[i + |f|] == d)
    && d !in f
  }

  /** Every field of `s` occurs as a field at some index; only the first at 0. */
  lemma {:induction false} FieldStart(s: string, d: char, k: nat) returns (i: int)
    requires k < |Fields(s, d)|
    ensures FieldAt(s, Fields(s, d)[k], i, d)
    ensures k == 0 <==> i == 0
    decreases |s|
  {
    if |s| == 0 {
      i := 0;
    } else {
      var rest := Fields(s[1..], d);
      if s[0] == d {
        assert Fields(s, d) == [""] + rest;
        if k == 0 {
          i := 0;
        } else {
          var j := FieldStart(s[1..], d, k - 1);
          i := j + 1;
          assert Fields(s, d)[k] == rest[k - 1];
          FieldAtShift(s, rest[k - 1], j, d);
        }
      } else if k == 0 {
        var j := FieldStart(s[1..], d, 0);
        i := 0;
        assert Fields(s, d)[0] == [s[0]] + rest[0];
        FieldAtCons(s, rest[0], d);
      } else {
        var j := FieldStart(s[1..], d, k);
        i := j + 1;
        assert Fields(s, d)[k] == rest[k];
        FieldAtShift(s, rest[k], j, d);
      }
    }
  }

  /** A field of the tail of `s`, seen from `s`: one index further on. */
  lemma FieldAtShift(s: string, f: string, j: int, d: char)
    requires |s| > 0 && FieldAt(s[1..], f, j, d) && (j > 0 || s[0] == d)
    ensures FieldAt(s, f, j + 1, d)
  {
    assert s[j + 1..j + 1 + |f|] == s[1..][j..j + |f|];
    if j > 0 {
      assert s[j] == s[1..][j - 1];
    }
    if j + 1 + |f| < |s| {
      assert s[j + 1 + |f|] == s[1..][j + |f|];
    }
  }

  /** The first field of the tail of `s`, with the first character of `s`
      (not a separator) in front. */
  lemma FieldAtCons(s: string, f: string, d: char)
    requires |s| > 0 && s[0] != d && FieldAt(s[1..], f, 0, d)
    ensures FieldAt(s, [s[0]] + f, 0, d)
  {
    assert s[..1 + |f|] == [s[0]] + s[1..][..|f|];
    if 1 + |f| < |s| {
      assert s[1 + |f|] == s[1..][|f|];
    }
  }

  /** A field found at index 0 is the first field; one found later is one of the others. */
  lemma {:induction false} FieldBack(s: string, f: string, i: int, d: char)
    requires FieldAt(s, f, i, d)
    ensures i == 0 ==> f == Fields(s, d)[0]
    ensures i > 0 ==> f in Fields(s, d)[1..]
    decreases |s|
  {
    if |s| > 0 {
      var rest := Fields(s[1..], d);
      if i == 0 {
        if s[0] == d {
          assert f == [];
        } else {
          assert |f| > 0;
          assert s[1..][..|f| - 1] == f[1..];
          FieldBack(s[1..], f[1..], 0, d);
          assert f == [f[0]] + f[1..];
        }
      } else {
        assert s[1..][i - 1..i - 1 + |f|] == s[i..i + |f|];
        FieldBack(s[1..], f, i - 1, d);
        if s[0] != d {
          assert Fields(s, d)[1..] == rest[1..];
        } else {
          assert Fields(s, d)[1..] == rest;
          assert rest == [rest[0]] + rest[1..];
        }
      }
    }
  }

  lemma TokenIsField(s: string, tag: string)
    requires |s| == 0 || s[|s| - 1] != '\n'
    requires '-' !in tag
    requires HasToken(s, tag)
    ensures tag in Fields(s, '-')
  {
    var k :| TokenAt(s, tag, k);
    assert FieldAt(s, tag, k, '-');
    FieldBack(s, tag, k, '-');
    var fs := Fields(s, '-');
    if k > 0 {
      var j :| 0 <= j < |fs[1..]| && fs[1..][j] == tag;
      assert fs[j + 1] == tag;
    }
  }

  lemma FieldIsToken(s: string, tag: string)
    requires tag in Fields(s, '-')
    ensures HasToken(s, tag)
  {
    var fs := Fields(s, '-');
    var k :| 0 <= k < |fs| && fs[k] == tag;
    var i := FieldStart(s, '-', k);
    assert TokenAt(s, tag, i);
  }

  /** Without a final newline, the pattern matches exactly when the tag is one
      of the label's dash-separated fields. */
  lemma TokenIffField(s: string, tag: string)
    requires |s| == 0 || s[|s| - 1] != '\n'
    requires '-' !in tag
    ensures HasToken(s, tag) <==> tag in Fields(s, '-')
  {
    if HasToken(s, tag) { TokenIsField(s, tag); }
    if tag in Fields(s, '-') { FieldIsToken(s, tag); }
  }

  /** normalize_type agrees with splitting on dashes, for labels that do not
      end in a newline. */
  lemma NormalizeTypeIsTokenLookup(name: string)
    requires |name| == 0 || name[|name| - 1] != '\n'
    ensures NormalizeType(name) == TokenType(name)
  {
    TokenIffField(name, "foss");
    TokenIffField(name, "pe");
    TokenIffField(name, "aio");
  }

  /** The documented examples, and a name inside a longer word not matching. */
  lemma NormalizeTypePeAio()
    ensures NormalizeType("pe-aio") == Some(Pe)
  {
    assert "pe-aio" == "pe" + ['-'] + "aio";
    FieldsOfCons("pe", '-', "aio");
    FieldsOfPlain("aio", '-');
    assert Fields("pe-aio", '-') == ["pe", "aio"];
    NormalizeTypeIsTokenLookup("pe-aio");
  }

  lemma NormalizeTypeFossInternal()
    ensures NormalizeType("foss-internal") == Some(Foss)
  {
    assert TokenAt("foss-internal", "foss", 0);
  }

  lemma NormalizeTypeInsideWord()
    ensures NormalizeType("pefoss") == None
  {
    FieldsOfPlain("pefoss", '-');
    NormalizeTypeIsTokenLookup("pefoss");
  }

  /** Whatever else the label holds and wherever the fields stand: a foss
      field makes it foss, a pe field makes it pe unless foss matches, and
      an aio field always gives a type. */
  lemma NormalizeTypePriority(name: string)
    ensures "foss" in Fields(name, '-') ==> NormalizeType(name) == Some(Foss)
    ensures "pe" in Fields(name, '-') ==> NormalizeType(name) == Some(Foss) || NormalizeType(name) == Some(Pe)
    ensures "aio" in Fields(name, '-') ==> NormalizeType(name).Some?
  {
    if "foss" in Fields(name, '-') { FieldIsToken(name, "foss"); }
    if "pe" in Fields(name, '-') { FieldIsToken(name, "pe"); }
    if "aio" in Fields(name, '-') { FieldIsToken(name, "aio"); }
  }

  /** `\Z` also matches before a final newline. */
  lemma NormalizeTypeTrailingNewline()
    ensures NormalizeType("foss\n") == Some(Foss)
  {
    assert TokenAt("foss\n", "foss", 0);
  }
}

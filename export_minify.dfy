/** The exporter's `minifyCSS` (js/exporter.js:1124-1133): six global
    regular-expression replacements and a final `trim`. Each replacement is
    a left-to-right scan that, where the pattern matches, writes the
    replacement and resumes after the match, and otherwise keeps one
    character and tries again one further on, as `String.prototype.replace`
    with a global pattern does. */
module ExportMinify {
  import opened Common

  /** The number of whitespace characters `s` starts with (a greedy `\s*`). */
  function SpaceRun(s: string): (n: nat)
    ensures n <= |s|
    ensures forall i :: 0 <= i < n ==> IsSpace(s[i])
    ensures n < |s| ==> !IsSpace(s[n])
  {
    if s == [] || !IsSpace(s[0]) then 0 else 1 + SpaceRun(s[1..])
  }

  lemma SpaceRunOfSpace(s: string)
    requires s != [] && IsSpace(s[0])
    ensures SpaceRun(s) == 1 + SpaceRun(s[1..])
  {
  }

  // ---------------------------------------------------------------------
  // The passes.

  /** The index of the first `*` `/` pair at or after `from`. */
  function CommentEnd(s: string, from: nat): (r: Option<nat>)
    requires from <= |s|
    ensures r.Some? ==> from <= r.value && r.value + 2 <= |s| && s[r.value] == '*' && s[r.value + 1] == '/'
    decreases |s| - from
  {
    if from + 2 > |s| then None
    else if s[from] == '*' && s[from + 1] == '/' then Some(from)
    else CommentEnd(s, from + 1)
  }

  /** Pass 1, comments to nothing: a comment opener with a closer after it
      goes with everything up to the nearest closer; an unclosed opener stays. */
  function StripComments(s: string): (r: string)
    ensures |r| <= |s|
    decreases |s|
  {
    if |s| < 2 then s
    else if s[0] == '/' && s[1] == '*' && CommentEnd(s, 2).Some? then StripComments(s[CommentEnd(s, 2).value + 2..])
    else [s[0]] + StripComments(s[1..])
  }

  /** Pass 2: each run of whitespace becomes one space. */
  function CollapseSpaces(s: string): (r: string)
    ensures |r| <= |s|
    ensures s != [] ==> r != [] && (if IsSpace(s[0]) then r[0] == ' ' else r[0] == s[0])
  {
    if s == [] then []
    else if IsSpace(s[0]) then " " + CollapseSpaces(s[SpaceRun(s)..])
    else [s[0]] + CollapseSpaces(s[1..])
  }

  /** Pass 3: a semicolon, optional whitespace and a closing brace become the brace. */
  function DropSemicolonBeforeBrace(s: string): (r: string)
    ensures |r| <= |s|
    ensures s != [] ==> r != [] && (r[0] == s[0] || r[0] == '}')
  {
    if s == [] then []
    else
      var k := 1 + SpaceRun(s[1..]);
      if s[0] == ';' && k < |s| && s[k] == '}' then "}" + DropSemicolonBeforeBrace(s[k + 1..])
      else [s[0]] + DropSemicolonBeforeBrace(s[1..])
  }

  /** Pass 4: the whitespace on both sides of an opening brace goes. */
  function TightenBraces(s: string): (r: string)
    ensures |r| <= |s|
    ensures s != [] ==> r != [] && (r[0] == s[0] || r[0] == '{')
  {
    if s == [] then []
    else
      var k := SpaceRun(s);
      if k < |s| && s[k] == '{' then
        var rest := s[k + 1..];
        "{" + TightenBraces(rest[SpaceRun(rest)..])
      else [s[0]] + TightenBraces(s[1..])
  }

  /** Passes 5 and 6, for a semicolon and a comma: the whitespace after each
      `c` goes. */
  function SquashAfter(s: string, c: char): (r: string)
    ensures |r| <= |s|
    ensures s != [] ==> r != [] && r[0] == s[0]
  {
    if s == [] then []
    else if s[0] == c then
      var rest := s[1..];
      [c] + SquashAfter(rest[SpaceRun(rest)..], c)
    else [s[0]] + SquashAfter(s[1..], c)
  }

  /** The number of whitespace characters `s` ends with. */
  function TrailingSpaceRun(s: string): (n: nat)
    ensures n <= |s|
    ensures forall i :: |s| - n <= i < |s| ==> IsSpace(s[i])
    ensures n < |s| ==> !IsSpace(s[|s| - n - 1])
  {
    if s == [] || !IsSpace(s[|s| - 1]) then 0 else 1 + TrailingSpaceRun(s[..|s| - 1])
  }

  /** `String.prototype.trim`. */
  function Trim(s: string): (r: string)
    ensures |r| <= |s|
    ensures r == [] || (!IsSpace(r[0]) && !IsSpace(r[|r| - 1]))
  {
    var t := s[SpaceRun(s)..];
    t[..|t| - TrailingSpaceRun(t)]
  }

  /** `minifyCSS(css)` */
  function MinifyCss(css: string): string {
    Trim(SquashAfter(SquashAfter(TightenBraces(DropSemicolonBeforeBrace(
      CollapseSpaces(StripComments(css)))), ';'), ','))
  }

  // ---------------------------------------------------------------------
  // What the output looks like.

  /** Text with no comment opener passes the comment pass unchanged. */
  lemma {:induction false} StripCommentsWithoutOpener(s: string)
    requires forall i :: 0 <= i < |s| - 1 ==> !(s[i] == '/' && s[i + 1] == '*')
    ensures StripComments(s) == s
    decreases |s|
  {
    if |s| >= 2 {
      assert !(s[0] == '/' && s[1] == '*');
      var rest := s[1..];
      assert forall i :: 0 <= i < |rest| ==> rest[i] == s[i + 1];
      StripCommentsWithoutOpener(rest);
      assert s == [s[0]] + rest;
    }
  }

  /** A closed comment and the text after it: only the text is left. */
  lemma StripCommentsOfComment(body: string, after: string)
    requires forall i :: 0 <= i < |body| - 1 ==> !(body[i] == '*' && body[i + 1] == '/')
    requires body != [] ==> body[|body| - 1] != '*'
    ensures StripComments("/*" + body + "*/" + after) == StripComments(after)
  {
    var s := "/*" + body + "*/" + after;
    var e := 2 + |body|;
    assert s[e] == '*' && s[e + 1] == '/';
    CommentEndFirst(s, 2, e);
    assert s[e + 2..] == after;
  }

  lemma {:induction false} CommentEndFirst(s: string, from: nat, e: nat)
    requires from <= e && e + 2 <= |s| && s[e] == '*' && s[e + 1] == '/'
    requires forall i :: from <= i < e ==> !(s[i] == '*' && s[i + 1] == '/')
    ensures CommentEnd(s, from) == Some(e)
    decreases e - from
  {
    if from < e {
      CommentEndFirst(s, from + 1, e);
    }
  }

  /** Every whitespace character is a plain space with no whitespace after it. */
  predicate SingleSpaced(s: string) {
    forall i :: 0 <= i < |s| && IsSpace(s[i]) ==> s[i] == ' ' && (i + 1 < |s| ==> !IsSpace(s[i + 1]))
  }

  /** No whitespace right before or right after any `c`. */
  predicate NoSpaceBeside(s: string, c: char) {
    forall i :: 0 <= i < |s| && s[i] == c ==>
      (i == 0 || !IsSpace(s[i - 1])) && (i + 1 == |s| || !IsSpace(s[i + 1]))
  }

  /** No whitespace right after any `c`. */
  predicate NoSpaceAfter(s: string, c: char) {
    forall i :: 0 <= i < |s| - 1 && s[i] == c ==> !IsSpace(s[i + 1])
  }

  lemma SingleSpacedCons(c: char, t: string)
    requires SingleSpaced(t)
    requires IsSpace(c) ==> c == ' ' && (t == [] || !IsSpace(t[0]))
    ensures SingleSpaced([c] + t)
  {
    var s := [c] + t;
    forall i | 0 <= i < |s| && IsSpace(s[i])
      ensures s[i] == ' ' && (i + 1 < |s| ==> !IsSpace(s[i + 1]))
    {
      if i > 0 {
        assert s[i] == t[i - 1];
        assert i + 1 < |s| ==> s[i + 1] == t[i];
      }
    }
  }

  lemma {:induction false} CollapseSpacesSingleSpaced(s: string)
    ensures SingleSpaced(CollapseSpaces(s))
    decreases |s|
  {
    if s != [] {
      if IsSpace(s[0]) {
        var rest := s[SpaceRun(s)..];
        CollapseSpacesSingleSpaced(rest);
        SingleSpacedCons(' ', CollapseSpaces(rest));
      } else {
        CollapseSpacesSingleSpaced(s[1..]);
        SingleSpacedCons(s[0], CollapseSpaces(s[1..]));
      }
    }
  }

  lemma {:induction false} DropSemicolonKeepsSingleSpaced(s: string)
    requires SingleSpaced(s)
    ensures SingleSpaced(DropSemicolonBeforeBrace(s))
    decreases |s|
  {
    if s != [] {
      var k := 1 + SpaceRun(s[1..]);
      if s[0] == ';' && k < |s| && s[k] == '}' {
        var rest := s[k + 1..];
        assert SingleSpaced(rest);
        DropSemicolonKeepsSingleSpaced(rest);
        SingleSpacedCons('}', DropSemicolonBeforeBrace(rest));
      } else {
        var rest := s[1..];
        assert SingleSpaced(rest);
        DropSemicolonKeepsSingleSpaced(rest);
        if rest != [] {
          assert IsSpace(s[0]) ==> !IsSpace(s[1]);
        }
        SingleSpacedCons(s[0], DropSemicolonBeforeBrace(rest));
      }
    }
  }

  /** An output that starts with a brace read one from the input. */
  lemma {:induction false} TightenBracesStart(s: string)
    requires s != []
    ensures TightenBraces(s)[0] == '{' <==> (SpaceRun(s) < |s| && s[SpaceRun(s)] == '{')
  {
  }

  lemma {:induction false} TightenBracesKeepsSingleSpaced(s: string)
    requires SingleSpaced(s)
    ensures SingleSpaced(TightenBraces(s))
    decreases |s|, 1
  {
    if s != [] {
      if SpaceRun(s) < |s| && s[SpaceRun(s)] == '{' {
        SingleSpacedAtBrace(s);
      } else {
        SingleSpacedAtOther(s);
      }
    }
  }

  lemma {:induction false} SingleSpacedAtBrace(s: string)
    requires SingleSpaced(s)
    requires SpaceRun(s) < |s| && s[SpaceRun(s)] == '{'
    ensures SingleSpaced(TightenBraces(s))
    decreases |s|, 0
  {
    var k := SpaceRun(s);
    var rest := s[k + 1..];
    var after := rest[SpaceRun(rest)..];
    assert after == s[k + 1 + SpaceRun(rest)..];
    assert SingleSpaced(after);
    TightenBracesKeepsSingleSpaced(after);
    assert TightenBraces(s) == "{" + TightenBraces(after);
    SingleSpacedCons('{', TightenBraces(after));
  }

  lemma {:induction false} SingleSpacedAtOther(s: string)
    requires SingleSpaced(s)
    requires s != [] && !(SpaceRun(s) < |s| && s[SpaceRun(s)] == '{')
    ensures SingleSpaced(TightenBraces(s))
    decreases |s|, 0
  {
    var rest := s[1..];
    assert SingleSpaced(rest);
    TightenBracesKeepsSingleSpaced(rest);
    var out := TightenBraces(rest);
    assert TightenBraces(s) == [s[0]] + out;
    if IsSpace(s[0]) && rest != [] {
      assert !IsSpace(rest[0]);
      TightenBracesStart(rest);
      assert !IsSpace(out[0]);
    }
    SingleSpacedCons(s[0], out);
  }

  lemma NoSpaceBesideCons(x: char, t: string, c: char)
    requires NoSpaceBeside(t, c)
    requires x == c ==> t == [] || !IsSpace(t[0])
    requires IsSpace(x) ==> t == [] || t[0] != c
    ensures NoSpaceBeside([x] + t, c)
  {
    var s := [x] + t;
    forall i | 0 <= i < |s| && s[i] == c
      ensures (i == 0 || !IsSpace(s[i - 1])) && (i + 1 == |s| || !IsSpace(s[i + 1]))
    {
      if i > 0 {
        assert s[i] == t[i - 1];
        assert i + 1 < |s| ==> s[i + 1] == t[i];
        assert i > 1 ==> s[i - 1] == t[i - 2];
      }
    }
  }

  /** After the brace pass no whitespace touches an opening brace. */
  lemma {:induction false} TightenBracesNoSpaceBeside(s: string)
    ensures NoSpaceBeside(TightenBraces(s), '{')
    decreases |s|, 1
  {
    if s != [] {
      if SpaceRun(s) < |s| && s[SpaceRun(s)] == '{' {
        TightenBracesAtBrace(s);
      } else {
        TightenBracesAtOther(s);
      }
    }
  }

  /** The brace pass at a brace: the brace is followed by the pass over a
      text that starts with no whitespace. */
  lemma {:induction false} TightenBracesAtBrace(s: string)
    requires SpaceRun(s) < |s| && s[SpaceRun(s)] == '{'
    ensures NoSpaceBeside(TightenBraces(s), '{')
    decreases |s|, 0
  {
    var rest := s[SpaceRun(s) + 1..];
    var after := rest[SpaceRun(rest)..];
    TightenBracesNoSpaceBeside(after);
    var out := TightenBraces(after);
    assert TightenBraces(s) == "{" + out;
    if after != [] {
      assert after[0] == rest[SpaceRun(rest)];
      assert !IsSpace(out[0]);
    }
    NoSpaceBesideCons('{', out, '{');
  }

  /** The brace pass elsewhere keeps one character, which is no brace, and
      is no whitespace when the pass over the rest starts with a brace. */
  lemma {:induction false} TightenBracesAtOther(s: string)
    requires s != [] && !(SpaceRun(s) < |s| && s[SpaceRun(s)] == '{')
    ensures NoSpaceBeside(TightenBraces(s), '{')
    decreases |s|, 0
  {
    var rest := s[1..];
    TightenBracesNoSpaceBeside(rest);
    var out := TightenBraces(rest);
    assert TightenBraces(s) == [s[0]] + out;
    assert s[0] != '{';
    if IsSpace(s[0]) && rest != [] {
      SpaceRunOfSpace(s);
      TightenBracesStart(rest);
      assert out[0] != '{';
    }
    NoSpaceBesideCons(s[0], out, '{');
  }

  lemma {:induction false} SquashAfterKeepsSingleSpaced(s: string, c: char)
    requires SingleSpaced(s) && !IsSpace(c)
    ensures SingleSpaced(SquashAfter(s, c))
    decreases |s|
  {
    if s != [] {
      var rest := s[1..];
      assert SingleSpaced(rest);
      if s[0] == c {
        var after := rest[SpaceRun(rest)..];
        assert after == s[1 + SpaceRun(rest)..];
        assert SingleSpaced(after);
        SquashAfterKeepsSingleSpaced(after, c);
        SingleSpacedCons(c, SquashAfter(after, c));
      } else {
        SquashAfterKeepsSingleSpaced(rest, c);
        if rest != [] {
          assert IsSpace(s[0]) ==> !IsSpace(s[1]);
        }
        SingleSpacedCons(s[0], SquashAfter(rest, c));
      }
    }
  }

  lemma {:induction false} SquashAfterKeepsNoSpaceBeside(s: string, c: char, b: char)
    requires NoSpaceBeside(s, b) && !IsSpace(c) && c != b
    ensures NoSpaceBeside(SquashAfter(s, c), b)
    decreases |s|
  {
    if s != [] {
      var rest := s[1..];
      assert NoSpaceBeside(rest, b) by {
        forall i | 0 <= i < |rest| && rest[i] == b
          ensures (i == 0 || !IsSpace(rest[i - 1])) && (i + 1 == |rest| || !IsSpace(rest[i + 1]))
        {
          assert rest[i] == s[i + 1];
        }
      }
      if s[0] == c {
        var after := rest[SpaceRun(rest)..];
        assert after == s[1 + SpaceRun(rest)..];
        assert NoSpaceBeside(after, b) by {
          var d := 1 + SpaceRun(rest);
          forall i | 0 <= i < |after| && after[i] == b
            ensures (i == 0 || !IsSpace(after[i - 1])) && (i + 1 == |after| || !IsSpace(after[i + 1]))
          {
            assert after[i] == s[i + d];
          }
        }
        SquashAfterKeepsNoSpaceBeside(after, c, b);
        NoSpaceBesideCons(c, SquashAfter(after, c), b);
      } else {
        SquashAfterKeepsNoSpaceBeside(rest, c, b);
        NoSpaceBesideCons(s[0], SquashAfter(rest, c), b);
      }
    }
  }

  lemma NoSpaceAfterCons(x: char, t: string, c: char)
    requires NoSpaceAfter(t, c)
    requires x == c ==> t == [] || !IsSpace(t[0])
    ensures NoSpaceAfter([x] + t, c)
  {
    var s := [x] + t;
    forall i | 0 <= i < |s| - 1 && s[i] == c
      ensures !IsSpace(s[i + 1])
    {
      assert s[i + 1] == t[i];
      if i > 0 {
        assert s[i] == t[i - 1];
      }
    }
  }

  /** After a squash pass no whitespace follows its character. */
  lemma {:induction false} SquashAfterNoSpaceAfter(s: string, c: char)
    requires !IsSpace(c)
    ensures NoSpaceAfter(SquashAfter(s, c), c)
    decreases |s|
  {
    if s != [] {
      var rest := s[1..];
      if s[0] == c {
        var after := rest[SpaceRun(rest)..];
        SquashAfterNoSpaceAfter(after, c);
        NoSpaceAfterCons(c, SquashAfter(after, c), c);
      } else {
        SquashAfterNoSpaceAfter(rest, c);
        NoSpaceAfterCons(s[0], SquashAfter(rest, c), c);
      }
    }
  }

  lemma {:induction false} SquashAfterKeepsNoSpaceAfter(s: string, c: char, d: char)
    requires NoSpaceAfter(s, d) && !IsSpace(c)
    ensures NoSpaceAfter(SquashAfter(s, c), d)
    decreases |s|
  {
    if s != [] {
      var rest := s[1..];
      assert NoSpaceAfter(rest, d) by {
        forall i | 0 <= i < |rest| - 1 && rest[i] == d
          ensures !IsSpace(rest[i + 1])
        {
          assert rest[i] == s[i + 1] && rest[i + 1] == s[i + 2];
        }
      }
      if s[0] == c {
        var after := rest[SpaceRun(rest)..];
        assert NoSpaceAfter(after, d) by {
          var k := 1 + SpaceRun(rest);
          forall i | 0 <= i < |after| - 1 && after[i] == d
            ensures !IsSpace(after[i + 1])
          {
            assert after[i] == s[i + k] && after[i + 1] == s[i + k + 1];
          }
        }
        SquashAfterKeepsNoSpaceAfter(after, c, d);
        NoSpaceAfterCons(c, SquashAfter(after, c), d);
      } else {
        SquashAfterKeepsNoSpaceAfter(rest, c, d);
        NoSpaceAfterCons(s[0], SquashAfter(rest, c), d);
      }
    }
  }

  /** `trim` cuts a slice out of its input. */
  lemma TrimIsSlice(s: string)
    ensures exists a, b :: 0 <= a <= b <= |s| && Trim(s) == s[a..b]
  {
    var a := SpaceRun(s);
    var t := s[a..];
    var b := a + |t| - TrailingSpaceRun(t);
    assert Trim(s) == s[a..b];
  }

  lemma SliceKeepsShape(s: string, a: int, b: int)
    requires 0 <= a <= b <= |s|
    ensures SingleSpaced(s) ==> SingleSpaced(s[a..b])
    ensures NoSpaceBeside(s, '{') ==> NoSpaceBeside(s[a..b], '{')
    ensures NoSpaceAfter(s, ';') ==> NoSpaceAfter(s[a..b], ';')
    ensures NoSpaceAfter(s, ',') ==> NoSpaceAfter(s[a..b], ',')
  {
    var r := s[a..b];
    assert forall i :: 0 <= i < |r| ==> r[i] == s[a + i];
  }

  /** What `minifyCSS` promises: trimmed, only single plain spaces, none
      beside an opening brace or after a semicolon or comma, and never
      longer than its input. */
  lemma MinifyCssShape(css: string)
    ensures |MinifyCss(css)| <= |css|
    ensures var r := MinifyCss(css); r == [] || (!IsSpace(r[0]) && !IsSpace(r[|r| - 1]))
    ensures SingleSpaced(MinifyCss(css))
    ensures NoSpaceBeside(MinifyCss(css), '{')
    ensures NoSpaceAfter(MinifyCss(css), ';') && NoSpaceAfter(MinifyCss(css), ',')
  {
    var s1 := StripComments(css);
    var s2 := CollapseSpaces(s1);
    var s3 := DropSemicolonBeforeBrace(s2);
    var s4 := TightenBraces(s3);
    var s5 := SquashAfter(s4, ';');
    var s6 := SquashAfter(s5, ',');
    CollapseSpacesSingleSpaced(s1);
    DropSemicolonKeepsSingleSpaced(s2);
    TightenBracesKeepsSingleSpaced(s3);
    TightenBracesNoSpaceBeside(s3);
    SquashAfterKeepsSingleSpaced(s4, ';');
    SquashAfterKeepsNoSpaceBeside(s4, ';', '{');
    SquashAfterNoSpaceAfter(s4, ';');
    SquashAfterKeepsSingleSpaced(s5, ',');
    SquashAfterKeepsNoSpaceBeside(s5, ',', '{');
    SquashAfterKeepsNoSpaceAfter(s5, ',', ';');
    SquashAfterNoSpaceAfter(s5, ',');
    TrimIsSlice(s6);
    var a, b :| 0 <= a <= b <= |s6| && Trim(s6) == s6[a..b];
    SliceKeepsShape(s6, a, b);
  }
}

/** Small helpers shared by the whole model: an optional value, the character
    classes the source's regular expressions use, and a few string functions. */
module Common {

  /** A value that may be absent (`null` / `undefined` in the source). */
  datatype Option<T> = None | Some(value: T) {
    function GetOr(default: T): T {
      match this
      case Some(v) => v
      case None => default
    }
  }

  /** `s` occurs somewhere inside `text`. */
  ghost predicate Contains(text: string, s: string) {
    exists i :: 0 <= i <= |text| - |s| && OccursAt(text, s, i)
  }

  /** `s` occurs in `text` starting at index `i`. */
  ghost predicate OccursAt(text: string, s: string, i: int)
    requires 0 <= i <= |text| - |s|
  {
    text[i..i + |s|] == s
  }

  lemma ContainsMiddle(a: string, s: string, b: string)
    ensures Contains(a + s + b, s)
  {
    var t := a + s + b;
    assert OccursAt(t, s, |a|);
  }

  /** The ASCII capital letters matched by the source's `/[A-Z]/`. */
  predicate IsUpper(c: char) {
    'A' <= c <= 'Z'
  }

  function ToLowerChar(c: char): (r: char)
    ensures !IsUpper(r)
    ensures !IsUpper(c) ==> r == c
  {
    if IsUpper(c) then (c as int + 32) as char else c
  }

  /** The characters of JavaScript's `\s` class, which are also the ones
      `String.prototype.trim` removes. */
  predicate IsSpace(c: char) {
    || c == ' ' || c == '\t' || c == '\n' || c == '\r' || c == '\U{000B}' || c == '\U{000C}'
    || c == '\U{00A0}' || c == '\U{1680}' || ('\U{2000}' <= c <= '\U{200A}')
    || c == '\U{2028}' || c == '\U{2029}' || c == '\U{202F}' || c == '\U{205F}'
    || c == '\U{3000}' || c == '\U{FEFF}'
  }

  /** Each capital letter becomes `-` followed by that letter, and the whole
      name is lower-cased: `key.replace(/([A-Z])/g, '-$1').toLowerCase()`. */
  function KebabCase(name: string): string
  {
    if name == [] then []
    else
      var head := if IsUpper(name[0]) then ['-', ToLowerChar(name[0])] else [ToLowerChar(name[0])];
      head + KebabCase(name[1..])
  }

  /** The CSS custom property a style key is published under: `--` + kebab case. */
  function CssVarName(key: string): (r: string)
    ensures |r| >= 2 && r[..2] == "--"
  {
    "--" + KebabCase(key)
  }

  /** A key without capital letters is published under its own name. */
  lemma {:induction false} KebabCaseOfLowerName(name: string)
    requires forall i :: 0 <= i < |name| ==> !IsUpper(name[i])
    ensures KebabCase(name) == name
  {
    if name != [] {
      KebabCaseOfLowerName(name[1..]);
      assert name == [name[0]] + name[1..];
    }
  }

  /** Kebab case works letter by letter, so it distributes over concatenation. */
  lemma {:induction false} KebabCaseAppend(a: string, b: string)
    ensures KebabCase(a + b) == KebabCase(a) + KebabCase(b)
  {
    if a == [] {
      assert a + b == b;
    } else {
      var head := if IsUpper(a[0]) then ['-', ToLowerChar(a[0])] else [ToLowerChar(a[0])];
      assert (a + b)[0] == a[0];
      assert (a + b)[1..] == a[1..] + b;
      calc {
        KebabCase(a + b);
        head + KebabCase(a[1..] + b);
        { KebabCaseAppend(a[1..], b); }
        head + (KebabCase(a[1..]) + KebabCase(b));
        (head + KebabCase(a[1..])) + KebabCase(b);
        KebabCase(a) + KebabCase(b);
      }
    }
  }

  /** A lower-case word followed by a capital letter gains a dash before
      that letter, which is lower-cased; the rest is converted on its own. */
  lemma KebabCaseAtCapital(lower: string, cap: char, rest: string)
    requires forall i :: 0 <= i < |lower| ==> !IsUpper(lower[i])
    requires IsUpper(cap)
    ensures KebabCase(lower + [cap] + rest) == lower + ['-', ToLowerChar(cap)] + KebabCase(rest)
  {
    KebabCaseAppend(lower, [cap] + rest);
    KebabCaseOfLowerName(lower);
    assert ([cap] + rest)[1..] == rest;
    assert lower + [cap] + rest == lower + ([cap] + rest);
  }

  /** `key` followed by one capitalised word becomes `key-word`. */
  lemma {:induction false} KebabCaseOfTwoWords(lower: string, cap: char, rest: string)
    requires forall i :: 0 <= i < |lower| ==> !IsUpper(lower[i])
    requires forall i :: 0 <= i < |rest| ==> !IsUpper(rest[i])
    requires IsUpper(cap)
    ensures KebabCase(lower + [cap] + rest) == lower + ['-', ToLowerChar(cap)] + rest
  {
    KebabCaseAtCapital(lower, cap, rest);
    KebabCaseOfLowerName(rest);
  }

  /** `key` followed by two capitalised words becomes `key-word-word`. */
  lemma KebabCaseOfThreeWords(w1: string, c1: char, w2: string, c2: char, w3: string)
    requires forall i :: 0 <= i < |w1| ==> !IsUpper(w1[i])
    requires forall i :: 0 <= i < |w2| ==> !IsUpper(w2[i])
    requires forall i :: 0 <= i < |w3| ==> !IsUpper(w3[i])
    requires IsUpper(c1) && IsUpper(c2)
    ensures KebabCase(w1 + [c1] + (w2 + [c2] + w3))
      == w1 + ['-', ToLowerChar(c1)] + (w2 + ['-', ToLowerChar(c2)] + w3)
  {
    KebabCaseAtCapital(w1, c1, w2 + [c2] + w3);
    KebabCaseOfTwoWords(w2, c2, w3);
  }

  // The four global style keys are published as these CSS custom properties.
  // (Each lemma takes the key as a parameter so that the verifier does not
  // try to evaluate the kebab-case conversion of a literal on its own.)
  lemma PrimaryColorVar(key: string)
    requires key == "primaryColor"
    ensures CssVarName(key) == "--primary-color"
  {
    KebabCaseOfTwoWords("primary", 'C', "olor");
    assert "primary" + ['C'] + "olor" == "primaryColor";
  }

  lemma SecondaryColorVar(key: string)
    requires key == "secondaryColor"
    ensures CssVarName(key) == "--secondary-color"
  {
    KebabCaseOfTwoWords("secondary", 'C', "olor");
    assert "secondary" + ['C'] + "olor" == "secondaryColor";
  }

  lemma FontFamilyVar(key: string)
    requires key == "fontFamily"
    ensures CssVarName(key) == "--font-family"
  {
    KebabCaseOfTwoWords("font", 'F', "amily");
    assert "font" + ['F'] + "amily" == "fontFamily";
  }

  lemma BaseFontSizeVar(key: string)
    requires key == "baseFontSize"
    ensures CssVarName(key) == "--base-font-size"
  {
    KebabCaseOfThreeWords("base", 'F', "ont", 'S', "ize");
    assert "base" + ['F'] + ("ont" + ['S'] + "ize") == key;
  }

  predicate IsDigit(c: char) {
    '0' <= c <= '9'
  }

  /** `String(n)` for a non-negative integer. */
  function NatToDecimal(n: nat): (r: string)
    ensures |r| > 0
    ensures forall i :: 0 <= i < |r| ==> IsDigit(r[i])
  {
    var d := ['0' + (n % 10) as char];
    if n < 10 then d else NatToDecimal(n / 10) + d
  }

  /** The text of each item, one after the other. */
  function Concat<T>(items: seq<T>, text: T -> string): string {
    if items == [] then ""
    else Concat(items[..|items| - 1], text) + text(items[|items| - 1])
  }

  lemma {:induction false} ConcatAppend<T>(a: seq<T>, b: seq<T>, text: T -> string)
    ensures Concat(a + b, text) == Concat(a, text) + Concat(b, text)
  {
    if b == [] {
      assert a + b == a;
    } else {
      var n := |b| - 1;
      assert (a + b)[..|a + b| - 1] == a + b[..n];
      ConcatAppend(a, b[..n], text);
    }
  }

  /** An item that renders to nothing can be dropped. */
  lemma ConcatSkip<T>(items: seq<T>, i: int, text: T -> string)
    requires 0 <= i < |items| && text(items[i]) == []
    ensures Concat(items, text) == Concat(items[..i] + items[i + 1..], text)
  {
    var before, after := Concat(items[..i], text), Concat(items[i + 1..], text);
    calc {
      Concat(items, text);
    ==  { ConcatAround(items, i, text); }
      before + text(items[i]) + after;
    ==  { assert before + [] == before; }
      before + after;
    ==  { ConcatAppend(items[..i], items[i + 1..], text); }
      Concat(items[..i] + items[i + 1..], text);
    }
  }

  /** The text of the `i`-th item lies between that of the items before it
      and that of the items after it. */
  lemma ConcatAround<T>(items: seq<T>, i: int, text: T -> string)
    requires 0 <= i < |items|
    ensures Concat(items, text) == Concat(items[..i], text) + text(items[i]) + Concat(items[i + 1..], text)
  {
    var upto := items[..i + 1];
    assert items == upto + items[i + 1..];
    ConcatAppend(upto, items[i + 1..], text);
    assert upto[..i] == items[..i];
  }
}

/** The string operations the pages use: `split`/`join`, ASCII case mapping
    and decimal rendering and parsing of small non-negative numbers. */
module Text {

  /** `s.split(c)` for a one-character separator: the pieces between
      separators, in order. Like JavaScript it never returns an empty list:
      the empty string splits into one empty piece. */
  function Split(s: string, c: char): (r: seq<string>)
    ensures |r| >= 1
  {
    if s == [] then [""]
    else
      var pre := Split(s[..|s| - 1], c);
      var last := s[|s| - 1];
      if last == c then pre + [""]
      else pre[..|pre| - 1] + [pre[|pre| - 1] + [last]]
  }

  /** `parts.join(sep)`. */
  function Join(parts: seq<string>, sep: string): string
  {
    if parts == [] then ""
    else if |parts| == 1 then parts[0]
    else Join(parts[..|parts| - 1], sep) + sep + parts[|parts| - 1]
  }

  /** One more character either starts a new empty piece (a separator) or
      extends the last piece. */
  lemma SplitSnoc(s: string, c: char, d: char)
    ensures var p := Split(s, c);
      Split(s + [d], c) == if d == c then p + [""] else p[..|p| - 1] + [p[|p| - 1] + [d]]
  {
    var t := s + [d];
    assert t[..|t| - 1] == s;
  }

  /** Extending the last piece extends the join. */
  lemma JoinLastGrow(parts: seq<string>, sep: string, d: char)
    requires parts != []
    ensures var k := |parts| - 1; Join(parts[..k] + [parts[k] + [d]], sep) == Join(parts, sep) + [d]
  {
    var k := |parts| - 1;
    if k == 0 {
      assert parts[..0] + [parts[0] + [d]] == [parts[0] + [d]];
    } else {
      JoinSnoc(parts[..k], parts[k] + [d], sep);
      JoinSnoc(parts[..k], parts[k], sep);
      assert parts[..k] + [parts[k]] == parts;
    }
  }

  /** Joining the pieces of a split with the separator gives the string back. */
  lemma {:induction false} JoinSplit(s: string, c: char)
    ensures Join(Split(s, c), [c]) == s
  {
    if s != [] {
      var s', d := s[..|s| - 1], s[|s| - 1];
      assert s == s' + [d];
      JoinSplit(s', c);
      SplitSnoc(s', c, d);
      if d == c {
        JoinSnoc(Split(s', c), "", [c]);
      } else {
        JoinLastGrow(Split(s', c), [c], d);
      }
    }
  }

  /** A string without the separator splits into itself alone. */
  lemma {:induction false} SplitWithoutSeparator(s: string, c: char)
    requires c !in s
    ensures Split(s, c) == [s]
  {
    if s != [] {
      var s' := s[..|s| - 1];
      assert c !in s' by {
        forall i | 0 <= i < |s'| ensures s'[i] != c { assert s'[i] == s[i]; }
      }
      SplitWithoutSeparator(s', c);
      assert s' + [s[|s| - 1]] == s;
    }
  }

  /** Splitting `a + [c] + b`, where `b` has no separator, splits `a` and
      appends `b` as the last piece. */
  lemma {:induction false} SplitAfterSeparator(a: string, c: char, b: string)
    requires c !in b
    ensures Split(a + [c] + b, c) == Split(a, c) + [b]
  {
    var s := a + [c] + b;
    if b == [] {
      assert s[..|s| - 1] == a;
    } else {
      var b' := b[..|b| - 1];
      assert c !in b' by {
        forall i | 0 <= i < |b'| ensures b'[i] != c { assert b'[i] == b[i]; }
      }
      SplitAfterSeparator(a, c, b');
      assert s[..|s| - 1] == a + [c] + b';
      assert b' + [b[|b| - 1]] == b;
    }
  }

  /** Splitting a join of separator-free pieces gives the pieces back. */
  lemma {:induction false} SplitJoin(parts: seq<string>, c: char)
    requires |parts| >= 1
    requires forall i :: 0 <= i < |parts| ==> c !in parts[i]
    ensures Split(Join(parts, [c]), c) == parts
  {
    if |parts| == 1 {
      SplitWithoutSeparator(parts[0], c);
    } else {
      var init := parts[..|parts| - 1];
      SplitJoin(init, c);
      SplitAfterSeparator(Join(init, [c]), c, parts[|parts| - 1]);
      assert init + [parts[|parts| - 1]] == parts;
    }
  }

  /** `ch.toUpperCase()` on ASCII letters. */
  function Upper(ch: char): char
  {
    if 'a' <= ch <= 'z' then (ch as int - 'a' as int + 'A' as int) as char else ch
  }

  /** `ch.toLowerCase()` on ASCII letters. */
  function LowerChar(ch: char): char
  {
    if 'A' <= ch <= 'Z' then (ch as int - 'A' as int + 'a' as int) as char else ch
  }

  /** `s.toLowerCase()` on ASCII text. */
  function Lower(s: string): (r: string)
    ensures |r| == |s|
    ensures forall i :: 0 <= i < |s| ==> r[i] == LowerChar(s[i])
  {
    seq(|s|, i requires 0 <= i < |s| => LowerChar(s[i]))
  }

  /** Text with no upper-case ASCII letter is unchanged by lower-casing. */
  lemma LowerOfLower(s: string)
    requires forall i :: 0 <= i < |s| ==> !('A' <= s[i] <= 'Z')
    ensures Lower(s) == s
  {
  }

  /** `w.charAt(0).toUpperCase() + w.slice(1)`. */
  function Capitalize(w: string): (r: string)
    ensures |r| == |w|
    ensures w != [] ==> r[0] == Upper(w[0]) && r[1..] == w[1..]
  {
    if w == [] then [] else [Upper(w[0])] + w[1..]
  }

  function CapitalizeEach(ws: seq<string>): (r: seq<string>)
    ensures |r| == |ws|
    ensures forall i :: 0 <= i < |ws| ==> r[i] == Capitalize(ws[i])
  {
    seq(|ws|, i requires 0 <= i < |ws| => Capitalize(ws[i]))
  }

  /** `s.split('_').map(capitalize).join(' ')`, the label of a snake_case key. */
  function TitleCase(s: string): string
  {
    Join(CapitalizeEach(Split(s, '_')), " ")
  }

  /** The character the label shows at position `i`: a space for each
      underscore, the upper-cased letter at the start of each word, and the
      character itself elsewhere. */
  function TitleChar(s: string, i: nat): char
    requires i < |s|
  {
    if s[i] == '_' then ' '
    else if i == 0 || s[i - 1] == '_' then Upper(s[i])
    else s[i]
  }

  lemma {:induction false} JoinSnoc(parts: seq<string>, w: string, sep: string)
    requires parts != []
    ensures Join(parts + [w], sep) == Join(parts, sep) + sep + w
  {
    assert (parts + [w])[..|parts|] == parts;
  }

  /** The last piece of a split is empty exactly when the string is empty
      or ends with the separator. */
  lemma SplitLastEmpty(s: string, c: char)
    ensures var p := Split(s, c); (p[|p| - 1] == "") <==> (s == [] || s[|s| - 1] == c)
  {
    if s != [] {
      var pre := Split(s[..|s| - 1], c);
      if s[|s| - 1] != c {
        assert |(pre[|pre| - 1] + [s[|s| - 1]])| > 0;
      }
    }
  }

  /** Appending an underscore to the key appends a space to its label. */
  lemma {:induction false} TitleCaseSnocSeparator(s: string)
    ensures TitleCase(s + ['_']) == TitleCase(s) + [' ']
  {
    var t := s + ['_'];
    assert t[..|t| - 1] == s;
    var p := Split(s, '_');
    assert Split(t, '_') == p + [""];
    var m := CapitalizeEach(p);
    assert CapitalizeEach(p + [""]) == m + [""];
    JoinSnoc(m, "", " ");
  }

  /** Capitalizing a word with one more letter. */
  lemma CapitalizeSnoc(w: string, d: char)
    ensures Capitalize(w + [d]) == Capitalize(w) + [if w == "" then Upper(d) else d]
  {
    if w != "" {
      assert (w + [d])[1..] == w[1..] + [d];
    }
  }

  /** Capitalizing the words after the last one grew by a letter. */
  lemma CapitalizeEachGrow(p: seq<string>, d: char)
    requires p != []
    ensures var k, m := |p| - 1, CapitalizeEach(p);
      CapitalizeEach(p[..k] + [p[k] + [d]]) == m[..k] + [m[k] + [if p[k] == "" then Upper(d) else d]]
  {
    var k, m := |p| - 1, CapitalizeEach(p);
    var grown := p[..k] + [p[k] + [d]];
    var ch := if p[k] == "" then Upper(d) else d;
    CapitalizeSnoc(p[k], d);
    var lhs, rhs := CapitalizeEach(grown), m[..k] + [m[k] + [ch]];
    assert |lhs| == |rhs|;
    forall i | 0 <= i < |lhs| ensures lhs[i] == rhs[i] {
      if i < k {
        assert grown[i] == p[i];
      }
    }
  }

  /** Joining the capitalized pieces after the last piece grew by a letter. */
  lemma LabelGrow(p: seq<string>, d: char)
    requires p != []
    ensures var k := |p| - 1;
      Join(CapitalizeEach(p[..k] + [p[k] + [d]]), " ")
        == Join(CapitalizeEach(p), " ") + [if p[k] == "" then Upper(d) else d]
  {
    var k, m := |p| - 1, CapitalizeEach(p);
    CapitalizeEachGrow(p, d);
    JoinLastGrow(m, " ", if p[k] == "" then Upper(d) else d);
  }

  /** Appending any other character extends the last word of the label. */
  lemma {:induction false} TitleCaseSnocLetter(s: string, d: char)
    requires d != '_'
    ensures TitleCase(s + [d]) ==
      TitleCase(s) + [if s == [] || s[|s| - 1] == '_' then Upper(d) else d]
  {
    var p := Split(s, '_');
    var k := |p| - 1;
    SplitSnoc(s, '_', d);
    assert Split(s + [d], '_') == p[..k] + [p[k] + [d]];
    LabelGrow(p, d);
    SplitLastEmpty(s, '_');
  }

  /** A character appended to the key does not change the label characters
      before it. */
  lemma TitleCharPrefix(s: string, d: char, i: nat)
    requires i < |s|
    ensures TitleChar(s + [d], i) == TitleChar(s, i)
  {
    assert (s + [d])[i] == s[i];
    if i > 0 {
      assert (s + [d])[i - 1] == s[i - 1];
    }
  }

  /** Appending a character to the key appends its TitleChar to the label. */
  lemma TitleCaseSnoc(s: string, d: char)
    ensures TitleCase(s + [d]) == TitleCase(s) + [TitleChar(s + [d], |s|)]
  {
    if d == '_' {
      TitleCaseSnocSeparator(s);
    } else {
      TitleCaseSnocLetter(s, d);
      if |s| > 0 {
        assert (s + [d])[|s| - 1] == s[|s| - 1];
      }
    }
  }

  /** The pointwise description carries over to a label grown by the
      TitleChar of a new last character. */
  lemma ShapeStep(s: string, d: char, shown: string, grown: string)
    requires |shown| == |s|
    requires forall i :: 0 <= i < |s| ==> shown[i] == TitleChar(s, i)
    requires grown == shown + [TitleChar(s + [d], |s|)]
    ensures |grown| == |s + [d]|
    ensures forall i :: 0 <= i < |s + [d]| ==> grown[i] == TitleChar(s + [d], i)
  {
    forall i | 0 <= i < |s|
      ensures grown[i] == TitleChar(s + [d], i)
    {
      TitleCharPrefix(s, d, i);
    }
  }

  /** The label has one character per character of the key, as described by
      TitleChar; for example `bank_transfer` becomes `Bank Transfer`. */
  lemma {:induction false} TitleCaseShape(s: string)
    ensures |TitleCase(s)| == |s|
    ensures forall i :: 0 <= i < |s| ==> TitleCase(s)[i] == TitleChar(s, i)
  {
    if s == [] {
      assert Split(s, '_') == [""];
      assert CapitalizeEach([""]) == [""];
    } else {
      var s', d := s[..|s| - 1], s[|s| - 1];
      assert s' + [d] == s;
      TitleCaseShape(s');
      TitleCaseSnoc(s', d);
      ShapeStep(s', d, TitleCase(s'), TitleCase(s));
    }
  }

  /** The decimal digit for 0..9. */
  function Digit(d: nat): char
    requires d < 10
  {
    ('0' as int + d) as char
  }

  /** `n.toString()` for a natural number. */
  function NatToString(n: nat): (r: string)
    ensures |r| >= 1
    ensures forall i :: 0 <= i < |r| ==> '0' <= r[i] <= '9'
  {
    if n < 10 then [Digit(n)] else NatToString(n / 10) + [Digit(n % 10)]
  }

  /** `parseInt(s)` for a non-empty string of decimal digits. */
  function ParseNat(s: string): nat
    requires forall i :: 0 <= i < |s| ==> '0' <= s[i] <= '9'
  {
    if s == [] then 0
    else ParseNat(s[..|s| - 1]) * 10 + (s[|s| - 1] as int - '0' as int)
  }

  /** Rendering a number in decimal and parsing it back gives the number. */
  lemma {:induction false} ParseNatToString(n: nat)
    ensures ParseNat(NatToString(n)) == n
  {
    var r := NatToString(n);
    if n < 10 {
      assert r[..0] == [];
    } else {
      ParseNatToString(n / 10);
      assert r[..|r| - 1] == NatToString(n / 10);
    }
  }
}

/** `util.Sanitize`, identical in both services: trim, drop every character
    outside an allow-list, then turn every whitespace run into one space.
    Strings are sequences of code points, so `strings.ToValidUTF8` is the
    identity here. */
module Sanitizer {

  /** Go's `unicode.IsSpace`, which `strings.TrimSpace` trims. */
  predicate IsUnicodeSpace(c: char)
  {
    var n := c as int;
    (9 <= n <= 13) || n == 0x20 || n == 0x85 || n == 0xA0 || n == 0x1680
    || (0x2000 <= n <= 0x200A) || n == 0x2028 || n == 0x2029 || n == 0x202F
    || n == 0x205F || n == 0x3000
  }

  /** `\s` of Go's RE2 syntax: tab, newline, form feed, carriage return, space
      (vertical tab is not in it). */
  predicate IsRegexpSpace(c: char)
  {
    c == '\t' || c == '\n' || c as int == 12 || c == '\r' || c == ' '
  }

  /** `\w` of Go's RE2 syntax: `[0-9A-Za-z_]`. */
  predicate IsWordChar(c: char)
  {
    ('0' <= c <= '9') || ('A' <= c <= 'Z') || ('a' <= c <= 'z') || c == '_'
  }

  /** The characters that `[^\w\s,.-@]` does not match. Inside the class,
      `.-@` is the range U+002E..U+0040, so `-` itself is not listed. */
  predicate IsAllowed(c: char)
  {
    IsWordChar(c) || IsRegexpSpace(c) || c == ',' || ('.' <= c <= '@')
  }

  /** An allowed character that is not whitespace. */
  predicate IsSolid(c: char)
  {
    IsAllowed(c) && !IsRegexpSpace(c)
  }

  function TrimLeft(s: string): (r: string)
    ensures |r| <= |s| && r == s[|s| - |r|..]
    ensures r == [] || !IsUnicodeSpace(r[0])
    ensures forall i :: 0 <= i < |s| - |r| ==> IsUnicodeSpace(s[i])
  {
    if s != [] && IsUnicodeSpace(s[0]) then TrimLeft(s[1..]) else s
  }

  function TrimRight(s: string): (r: string)
    ensures |r| <= |s| && r == s[..|r|]
    ensures r == [] || !IsUnicodeSpace(r[|r| - 1])
    ensures forall i :: |r| <= i < |s| ==> IsUnicodeSpace(s[i])
  {
    if s != [] && IsUnicodeSpace(s[|s| - 1]) then TrimRight(s[..|s| - 1]) else s
  }

  /** The number of Unicode spaces `s` starts with. */
  function Lead(s: string): (n: nat)
    ensures n <= |s|
  {
    if s != [] && IsUnicodeSpace(s[0]) then 1 + Lead(s[1..]) else 0
  }

  lemma {:induction false} LeadTrimLeft(s: string)
    ensures Lead(s) == |s| - |TrimLeft(s)|
  {
    if s != [] && IsUnicodeSpace(s[0]) {
      LeadTrimLeft(s[1..]);
    }
  }

  /** `strings.TrimSpace`: neither end of the result is a Unicode space
      (`TrimSpaceSpec` says which slice of the input it is). */
  function TrimSpace(s: string): (r: string)
    ensures |r| <= |s|
    ensures r == [] || (!IsUnicodeSpace(r[0]) && !IsUnicodeSpace(r[|r| - 1]))
  {
    TrimRight(TrimLeft(s))
  }

  /** The trimmed text is the slice of the input that starts after its
      `Lead(s)` leading Unicode spaces, and everything after the slice is a
      Unicode space too; with the ends of the slice not being spaces, this
      fixes the result. */
  lemma TrimSpaceSpec(s: string)
    ensures Lead(s) + |TrimSpace(s)| <= |s|
    ensures TrimSpace(s) == s[Lead(s)..Lead(s) + |TrimSpace(s)|]
    ensures forall i :: 0 <= i < Lead(s) ==> IsUnicodeSpace(s[i])
    ensures forall i :: Lead(s) + |TrimSpace(s)| <= i < |s| ==> IsUnicodeSpace(s[i])
  {
    LeadTrimLeft(s);
    TrailingSpaces(s, Lead(s), TrimLeft(s), TrimSpace(s));
  }

  lemma TrailingSpaces(s: string, k: nat, l: string, r: string)
    requires k <= |s| && l == s[k..]
    requires |r| <= |l| && r == l[..|r|]
    requires forall i :: |r| <= i < |l| ==> IsUnicodeSpace(l[i])
    ensures r == s[k..k + |r|]
    ensures forall i :: k + |r| <= i < |s| ==> IsUnicodeSpace(s[i])
  {
    forall i | k + |r| <= i < |s| ensures IsUnicodeSpace(s[i]) {
      assert s[i] == l[i - k];
    }
  }

  /** `re.ReplaceAllString(input, "")` with `re = [^\w\s,.-@]`. */
  function Strip(s: string): (r: string)
    ensures |r| <= |s|
    ensures forall i :: 0 <= i < |r| ==> IsAllowed(r[i])
    ensures forall i :: 0 <= i < |r| ==> r[i] in s
  {
    if s == [] then [] else (if IsAllowed(s[0]) then [s[0]] else []) + Strip(s[1..])
  }

  /** The longest suffix of `s` that does not start with `\s`. */
  function DropSpaces(s: string): (r: string)
    ensures |r| <= |s| && r == s[|s| - |r|..]
    ensures r == [] || !IsRegexpSpace(r[0])
    ensures forall i :: 0 <= i < |s| - |r| ==> IsRegexpSpace(s[i])
  {
    if s != [] && IsRegexpSpace(s[0]) then DropSpaces(s[1..]) else s
  }

  /** `reSpaces.ReplaceAllString(input, " ")` with `reSpaces = \s+`: every
      maximal run of `\s` characters becomes a single space. */
  function Collapse(s: string): (r: string)
    ensures |r| <= |s|
    ensures (r == []) == (s == [])
    ensures s != [] && !IsRegexpSpace(s[0]) ==> r[0] == s[0]
    decreases |s|
  {
    if s == [] then []
    else if IsRegexpSpace(s[0]) then [' '] + Collapse(DropSpaces(s[1..]))
    else [s[0]] + Collapse(s[1..])
  }

  /** Collapsing text of allowed characters leaves only single spaces and
      allowed non-space characters. */
  lemma {:induction false} CollapseChars(s: string)
    requires forall i :: 0 <= i < |s| ==> IsAllowed(s[i])
    ensures forall i :: 0 <= i < |Collapse(s)| ==> IsSolid(Collapse(s)[i]) || Collapse(s)[i] == ' '
    decreases |s|
  {
    if s == [] {
    } else if IsRegexpSpace(s[0]) {
      var t := DropSpaces(s[1..]);
      AllowedSuffix(s, |s| - |t|);
      CollapseChars(t);
      HeadThen(' ', Collapse(t));
    } else {
      AllowedSuffix(s, 1);
      CollapseChars(s[1..]);
      HeadThen(s[0], Collapse(s[1..]));
    }
  }

  lemma AllowedSuffix(s: string, k: nat)
    requires k <= |s|
    requires forall i :: 0 <= i < |s| ==> IsAllowed(s[i])
    ensures forall i :: 0 <= i < |s[k..]| ==> IsAllowed(s[k..][i])
  {
    forall i | 0 <= i < |s[k..]| ensures IsAllowed(s[k..][i]) {
      assert s[k..][i] == s[k + i];
    }
  }

  lemma HeadThen(c: char, r: string)
    requires IsSolid(c) || c == ' '
    requires forall i :: 0 <= i < |r| ==> IsSolid(r[i]) || r[i] == ' '
    ensures forall i :: 0 <= i < |[c] + r| ==> IsSolid(([c] + r)[i]) || ([c] + r)[i] == ' '
  {
    forall i | 0 < i < |[c] + r| ensures IsSolid(([c] + r)[i]) || ([c] + r)[i] == ' ' {
      assert ([c] + r)[i] == r[i - 1];
    }
  }

  /** No two whitespace characters of the collapsed text are adjacent. */
  lemma {:induction false} CollapseNoRuns(s: string)
    ensures forall i :: 0 <= i < |Collapse(s)| - 1 ==>
      !(IsRegexpSpace(Collapse(s)[i]) && IsRegexpSpace(Collapse(s)[i + 1]))
    decreases |s|
  {
    if s == [] {
    } else if IsRegexpSpace(s[0]) {
      var t := DropSpaces(s[1..]);
      CollapseNoRuns(t);
      NoRunsThen(' ', Collapse(t));
    } else {
      CollapseNoRuns(s[1..]);
      NoRunsThen(s[0], Collapse(s[1..]));
    }
  }

  lemma NoRunsThen(c: char, r: string)
    requires !(IsRegexpSpace(c) && r != [] && IsRegexpSpace(r[0]))
    requires forall i :: 0 <= i < |r| - 1 ==> !(IsRegexpSpace(r[i]) && IsRegexpSpace(r[i + 1]))
    ensures forall i :: 0 <= i < |[c] + r| - 1 ==> !(IsRegexpSpace(([c] + r)[i]) && IsRegexpSpace(([c] + r)[i + 1]))
  {
    forall i | 0 < i < |[c] + r| - 1
      ensures !(IsRegexpSpace(([c] + r)[i]) && IsRegexpSpace(([c] + r)[i + 1]))
    {
      assert ([c] + r)[i] == r[i - 1] && ([c] + r)[i + 1] == r[i];
    }
  }

  /** The whole pipeline of `Sanitize` (both services' util.go). */
  function Sanitize(input: string): (r: string)
    ensures |r| <= |input|
    ensures forall i :: 0 <= i < |r| ==> IsSolid(r[i]) || r[i] == ' '
    ensures forall i :: 0 <= i < |r| - 1 ==> !(IsRegexpSpace(r[i]) && IsRegexpSpace(r[i + 1]))
  {
    CollapseChars(Strip(TrimSpace(input)));
    CollapseNoRuns(Strip(TrimSpace(input)));
    Collapse(Strip(TrimSpace(input)))
  }

  /** The allowed non-whitespace characters of `s`, in order. */
  function Solid(s: string): string
  {
    if s == [] then [] else Kept(s[0]) + Solid(s[1..])
  }

  /** One character as `Solid` keeps it: itself when solid, else nothing. */
  function Kept(c: char): string
  {
    if IsSolid(c) then [c] else []
  }

  lemma {:induction false} SolidAppend(a: string, b: string)
    ensures Solid(a + b) == Solid(a) + Solid(b)
    decreases |a|
  {
    if a == [] {
      assert a + b == b;
    } else {
      assert (a + b)[0] == a[0];
      assert (a + b)[1..] == a[1..] + b;
      SolidAppend(a[1..], b);
    }
  }

  /** A string made only of Unicode spaces has no solid character: none of
      the characters `TrimSpace` removes survives the filter as non-space. */
  lemma {:induction false} SolidOfSpaces(s: string)
    requires forall i :: 0 <= i < |s| ==> IsUnicodeSpace(s[i])
    ensures Solid(s) == []
  {
    if s != [] {
      SolidOfSpaces(s[1..]);
    }
  }

  lemma {:induction false} SolidOfRegexpSpaces(s: string)
    requires forall i :: 0 <= i < |s| ==> IsRegexpSpace(s[i])
    ensures Solid(s) == []
  {
    if s != [] {
      SolidOfRegexpSpaces(s[1..]);
    }
  }

  lemma SolidTrimLeft(s: string)
    ensures Solid(TrimLeft(s)) == Solid(s)
  {
    var l := TrimLeft(s);
    var front := s[..|s| - |l|];
    assert s == front + l;
    SolidOfSpaces(front);
    SolidAppend(front, l);
  }

  lemma SolidTrimRight(s: string)
    ensures Solid(TrimRight(s)) == Solid(s)
  {
    var m := TrimRight(s);
    var back := s[|m|..];
    assert s == m + back;
    SolidOfSpaces(back);
    SolidAppend(m, back);
  }

  lemma SolidTrimSpace(s: string)
    ensures Solid(TrimSpace(s)) == Solid(s)
  {
    SolidTrimLeft(s);
    SolidTrimRight(TrimLeft(s));
  }

  lemma {:induction false} SolidStrip(s: string)
    ensures Solid(Strip(s)) == Solid(s)
  {
    if s != [] {
      SolidStrip(s[1..]);
      SolidAppend(if IsAllowed(s[0]) then [s[0]] else [], Strip(s[1..]));
    }
  }

  lemma {:induction false} SolidCollapse(s: string)
    ensures Solid(Collapse(s)) == Solid(s)
    decreases |s|
  {
    if s != [] {
      if IsRegexpSpace(s[0]) {
        var t := s[1..];
        var d := DropSpaces(t);
        SolidCollapse(d);
        SolidAppend([' '], Collapse(d));
        assert t == t[..|t| - |d|] + d;
        SolidOfRegexpSpaces(t[..|t| - |d|]);
        SolidAppend(t[..|t| - |d|], d);
      } else {
        SolidCollapse(s[1..]);
        SolidAppend([s[0]], Collapse(s[1..]));
      }
    }
  }

  /** Apart from whitespace, the output is exactly the input's allowed
      characters in input order: nothing is reordered, duplicated or invented,
      and trimming never removes a character the filter would keep. */
  lemma SanitizeKeepsOrder(input: string)
    ensures Solid(Sanitize(input)) == Solid(input)
  {
    SolidCollapse(Strip(TrimSpace(input)));
    SolidStrip(TrimSpace(input));
    SolidTrimSpace(input);
  }

  /** `Strip` is the in-order filter: it distributes over concatenation and
      keeps a single character exactly when it is allowed. */
  lemma {:induction false} StripSpec(a: string, b: string, c: char)
    ensures Strip(a + b) == Strip(a) + Strip(b)
    ensures Strip([c]) == if IsAllowed(c) then [c] else []
    decreases |a|
  {
    if a == [] {
      assert a + b == b;
    } else {
      assert (a + b)[0] == a[0];
      assert (a + b)[1..] == a[1..] + b;
      StripSpec(a[1..], b, c);
    }
  }

  /** Text of allowed characters passes the filter unchanged. */
  lemma {:induction false} StripAllowed(s: string)
    requires forall i :: 0 <= i < |s| ==> IsAllowed(s[i])
    ensures Strip(s) == s
  {
    if s != [] {
      AllowedSuffix(s, 1);
      StripAllowed(s[1..]);
    }
  }

  lemma {:induction false} DropSpacesAppend(a: string, b: string)
    requires a != [] && !IsRegexpSpace(a[|a| - 1])
    ensures DropSpaces(a + b) == DropSpaces(a) + b
  {
    assert (a + b)[0] == a[0];
    if IsRegexpSpace(a[0]) {
      assert (a + b)[1..] == a[1..] + b;
      DropSpacesAppend(a[1..], b);
    }
  }

  lemma {:induction false} DropSpacesRun(w: string, y: string)
    requires forall i :: 0 <= i < |w| ==> IsRegexpSpace(w[i])
    requires y == [] || !IsRegexpSpace(y[0])
    ensures DropSpaces(w + y) == y
  {
    if w == [] {
      assert w + y == y;
    } else {
      assert (w + y)[0] == w[0];
      assert (w + y)[1..] == w[1..] + y;
      DropSpacesRun(w[1..], y);
    }
  }

  /** No whitespace run crosses a boundary that follows a non-`\s`
      character, so the two sides collapse separately. */
  lemma {:induction false} CollapseAppend(a: string, b: string)
    requires a == [] || !IsRegexpSpace(a[|a| - 1])
    ensures Collapse(a + b) == Collapse(a) + Collapse(b)
    decreases |a|
  {
    if a == [] {
      assert a + b == b;
    } else {
      var t := a[1..];
      assert |a| > 1 ==> t[|t| - 1] == a[|a| - 1];
      assert (a + b)[1..] == t + b;
      CollapseAppend(t, b);
      if IsRegexpSpace(a[0]) {
        assert |a| > 1 && (a + b)[1] == a[1];
        if IsRegexpSpace(a[1]) {
          CollapseDouble(a);
          CollapseDouble(a + b);
        } else {
          CollapseSingle(a);
          CollapseSingle(a + b);
        }
      }
    }
  }

  /** Of two leading `\s` characters, the first adds nothing. */
  lemma CollapseDouble(s: string)
    requires |s| >= 2 && IsRegexpSpace(s[0]) && IsRegexpSpace(s[1])
    ensures Collapse(s) == Collapse(s[1..])
  {
    assert s[1..][1..] == s[2..];
  }

  /** A single `\s` before a non-`\s` character becomes one space. */
  lemma CollapseSingle(s: string)
    requires |s| >= 2 && IsRegexpSpace(s[0]) && !IsRegexpSpace(s[1])
    ensures Collapse(s) == [' '] + Collapse(s[1..])
  {
  }

  /** A maximal run of `\s` characters, however long and whatever its
      characters, becomes exactly one space, and both sides collapse on
      their own. */
  lemma CollapseRun(x: string, w: string, y: string)
    requires x == [] || !IsRegexpSpace(x[|x| - 1])
    requires w != [] && forall i :: 0 <= i < |w| ==> IsRegexpSpace(w[i])
    requires y == [] || !IsRegexpSpace(y[0])
    ensures Collapse(x + w + y) == Collapse(x) + [' '] + Collapse(y)
  {
    var wy := w + y;
    assert x + w + y == x + wy;
    CollapseAppend(x, wy);
    RunThen(w, y);
  }

  lemma {:induction false} RunThen(w: string, y: string)
    requires w != [] && forall i :: 0 <= i < |w| ==> IsRegexpSpace(w[i])
    requires y == [] || !IsRegexpSpace(y[0])
    ensures Collapse(w + y) == [' '] + Collapse(y)
  {
    assert (w + y)[0] == w[0];
    assert (w + y)[1..] == w[1..] + y;
    if |w| == 1 {
      assert w[1..] + y == y;
      if y != [] {
        CollapseSingle(w + y);
      }
    } else {
      assert (w + y)[1] == w[1];
      CollapseDouble(w + y);
      RunThen(w[1..], y);
    }
  }

  /** Text without `\s` is left as it is. */
  lemma {:induction false} CollapseSolidText(s: string)
    requires forall i :: 0 <= i < |s| ==> !IsRegexpSpace(s[i])
    ensures Collapse(s) == s
  {
    if s != [] {
      CollapseSolidText(s[1..]);
    }
  }

  /** Non-empty text of allowed characters whose two ends are solid: the trim
      and the filter leave it alone. */
  predicate Clean(s: string)
  {
    s != [] && IsSolid(s[0]) && IsSolid(s[|s| - 1])
    && forall i :: 0 <= i < |s| ==> IsAllowed(s[i])
  }

  lemma SanitizeClean(s: string)
    requires Clean(s)
    ensures Sanitize(s) == Collapse(s)
  {
    TrimSolidEnds(s);
    StripAllowed(s);
  }

  /** Solid characters are never Unicode spaces, so text with solid ends is
      already trimmed. */
  lemma TrimSolidEnds(s: string)
    requires s != [] && IsSolid(s[0]) && IsSolid(s[|s| - 1])
    ensures TrimSpace(s) == s
  {
    SolidNotSpace(s[0]);
    SolidNotSpace(s[|s| - 1]);
    assert TrimLeft(s) == s;
    assert TrimRight(s) == s;
  }

  lemma SolidNotSpace(c: char)
    requires IsSolid(c)
    ensures !IsUnicodeSpace(c)
  {
  }

  /** Between two clean pieces, a whitespace run of any length and mix of
      `\s` characters becomes one space, and each piece is sanitized as if
      alone. */
  lemma SanitizeSpaceRun(x: string, w: string, y: string)
    requires Clean(x) && Clean(y)
    requires w != [] && forall i :: 0 <= i < |w| ==> IsRegexpSpace(w[i])
    ensures Sanitize(x + w + y) == Sanitize(x) + " " + Sanitize(y)
  {
    var s := x + w + y;
    assert Clean(s) by {
      assert s[0] == x[0] && s[|s| - 1] == y[|y| - 1];
      forall i | 0 <= i < |s| ensures IsAllowed(s[i]) {
        if i < |x| {
          assert s[i] == x[i];
        } else if i < |x| + |w| {
          assert s[i] == w[i - |x|];
        } else {
          assert s[i] == y[i - |x| - |w|];
        }
      }
    }
    SanitizeClean(s);
    SanitizeClean(x);
    SanitizeClean(y);
    CollapseRun(x, w, y);
  }

  /** Text of solid characters only is its own sanitized form. */
  lemma SanitizeSolidText(s: string)
    requires forall i :: 0 <= i < |s| ==> IsSolid(s[i])
    ensures Sanitize(s) == s
  {
    if s != [] {
      SanitizeClean(s);
      CollapseSolidText(s);
    }
  }

  /** Two words separated by mixed whitespace come out separated by one
      space. */
  lemma SanitizeJoinsWords(x: string, y: string)
    requires x != [] && y != []
    requires forall i :: 0 <= i < |x| ==> IsSolid(x[i])
    requires forall i :: 0 <= i < |y| ==> IsSolid(y[i])
    ensures Sanitize(x + " \t\n " + y) == x + " " + y
  {
    var w := " \t\n ";
    assert forall i :: 0 <= i < |w| ==> IsRegexpSpace(w[i]);
    SanitizeSpaceRun(x, w, y);
    SanitizeSolidText(x);
    SanitizeSolidText(y);
  }

  /** `-` never survives: `.-@` in the class is a range, not three characters. */
  lemma SanitizeRemovesHyphen(input: string)
    ensures '-' !in Sanitize(input)
  {
  }

  /** The output is not guaranteed to be trimmed: the trim runs before the
      filter, so a space that followed a removed character stays in front. */
  lemma SanitizeMayStartWithSpace()
    ensures Sanitize("\U{E9} a") == " a"
  {
    ExampleTrimmed();
    ExampleStripped();
    ExampleCollapsed();
  }

  lemma ExampleTrimmed()
    ensures TrimSpace("\U{E9} a") == "\U{E9} a"
  {
    var s := "\U{E9} a";
    assert !IsUnicodeSpace(s[0]);
    assert TrimLeft(s) == s;
    assert TrimRight(s) == s by { assert !IsUnicodeSpace(s[2]); }
  }

  lemma ExampleStripped()
    ensures Strip("\U{E9} a") == " a"
  {
    var s := "\U{E9} a";
    assert !IsAllowed(s[0]);
    assert Strip("a") == "a" by { assert Strip("a"[1..]) == []; }
    assert Strip(" a") == " a" by { assert " a"[1..] == "a"; }
    assert s[1..] == " a";
  }

  lemma ExampleCollapsed()
    ensures Collapse(" a") == " a"
  {
    assert Collapse("a") == "a" by { assert "a"[1..] == []; }
    assert DropSpaces(" a"[1..]) == "a";
  }
}

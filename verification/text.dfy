/** The string primitives the portal relies on: `String.prototype.trim`, ASCII case mapping,
    `includes`, and the camelCase to snake_case rewrite `id.replace(/([A-Z])/g, m => '_' + m.toLowerCase())`. */
module Text {

  /** ECMAScript WhiteSpace and LineTerminator code points: exactly what `trim` strips. */
  predicate IsSpace(c: char) {
    || c == '\t' || c == '\n' || c == '\U{000B}' || c == '\U{000C}' || c == '\r' || c == ' '
    || c == '\U{00A0}' || c == '\U{1680}' || ('\U{2000}' <= c <= '\U{200A}')
    || c == '\U{2028}' || c == '\U{2029}' || c == '\U{202F}' || c == '\U{205F}'
    || c == '\U{3000}' || c == '\U{FEFF}'
  }

  predicate AllSpace(s: string) {
    forall i :: 0 <= i < |s| ==> IsSpace(s[i])
  }

  /** Drops the longest all-space prefix. */
  function TrimStart(s: string): (r: string)
    ensures |r| <= |s| && r == s[|s| - |r|..]
    ensures AllSpace(s[..|s| - |r|])
    ensures r == [] || !IsSpace(r[0])
  {
    if |s| > 0 && IsSpace(s[0]) then
      var r := TrimStart(s[1..]);
      assert s[..|s| - |r|] == [s[0]] + s[1..][..|s| - 1 - |r|];
      r
    else s
  }

  /** Drops the longest all-space suffix. */
  function TrimEnd(s: string): (r: string)
    ensures |r| <= |s| && r == s[..|r|]
    ensures AllSpace(s[|r|..])
    ensures r == [] || !IsSpace(r[|r| - 1])
  {
    if |s| > 0 && IsSpace(s[|s| - 1]) then
      var r := TrimEnd(s[..|s| - 1]);
      assert s[|r|..] == s[..|s| - 1][|r|..] + [s[|s| - 1]];
      r
    else s
  }

  /** `r` is `s` with an all-space prefix and an all-space suffix cut off. */
  ghost predicate CutFrom(r: string, s: string) {
    exists i, j :: 0 <= i <= j <= |s| && AllSpace(s[..i]) && AllSpace(s[j..]) && r == s[i..j]
  }

  /** `String.prototype.trim`. */
  function Trim(s: string): (r: string)
    ensures CutFrom(r, s)
    ensures r == [] <==> AllSpace(s)
    ensures r != [] ==> !IsSpace(r[0]) && !IsSpace(r[|r| - 1])
  {
    var a := TrimStart(s);
    var r := TrimEnd(a);
    var i := |s| - |a|;
    assert s[i..i + |r|] == r;
    assert AllSpace(s[i + |r|..]) by {
      assert s[i + |r|..] == a[|r|..];
    }
    r
  }

  /** Leading white space makes no difference to `TrimStart`. */
  lemma {:induction false} TrimStartSkipsSpace(a: string, s: string)
    requires AllSpace(a)
    ensures TrimStart(a + s) == TrimStart(s)
  {
    if a != [] {
      assert (a + s)[0] == a[0];
      assert (a + s)[1..] == a[1..] + s;
      TrimStartSkipsSpace(a[1..], s);
    }
    else {
      assert a + s == s;
    }
  }

  /** Trailing white space makes no difference to `TrimEnd`. */
  lemma {:induction false} TrimEndSkipsSpace(s: string, b: string)
    requires AllSpace(b)
    ensures TrimEnd(s + b) == TrimEnd(s)
    decreases |b|
  {
    if b != [] {
      var n := |s + b|;
      assert (s + b)[n - 1] == b[|b| - 1];
      assert (s + b)[..n - 1] == s + b[..|b| - 1];
      TrimEndSkipsSpace(s, b[..|b| - 1]);
    } else {
      assert s + b == s;
    }
  }

  /** Once a non-space character is reached, `TrimStart` keeps everything after it. */
  lemma {:induction false} TrimStartAppend(s: string, b: string)
    requires !AllSpace(s)
    ensures TrimStart(s + b) == TrimStart(s) + b
  {
    assert s != [];
    assert (s + b)[0] == s[0];
    if IsSpace(s[0]) {
      assert (s + b)[1..] == s[1..] + b;
      assert forall i :: 1 <= i < |s| ==> s[i] == s[1..][i - 1];
      TrimStartAppend(s[1..], b);
    }
  }

  /** White space around a text makes no difference to `trim`. */
  lemma TrimIgnoresPadding(a: string, s: string, b: string)
    requires AllSpace(a) && AllSpace(b)
    ensures Trim(a + s + b) == Trim(s)
  {
    assert a + s + b == a + (s + b);
    TrimStartSkipsSpace(a, s + b);
    if AllSpace(s) {
      assert AllSpace(s + b);
    } else {
      TrimStartAppend(s, b);
      TrimEndSkipsSpace(TrimStart(s), b);
    }
  }

  predicate IsUpper(c: char) { 'A' <= c <= 'Z' }

  predicate IsLower(c: char) { 'a' <= c <= 'z' }

  /** ASCII lower-casing of one character. */
  function LowerChar(c: char): (d: char)
    ensures !IsUpper(d)
    ensures IsUpper(c) ==> IsLower(d) && (d as int) - (c as int) == 32
    ensures !IsUpper(c) ==> d == c
  {
    if IsUpper(c) then (c as int + 32) as char else c
  }

  /** ASCII upper-casing of one character. */
  function UpperChar(c: char): (d: char)
    ensures !IsLower(d)
    ensures IsLower(c) ==> IsUpper(d) && (c as int) - (d as int) == 32
    ensures !IsLower(c) ==> d == c
  {
    if IsLower(c) then (c as int - 32) as char else c
  }

  /** `toLowerCase`, restricted to the ASCII letters. */
  function ToLower(s: string): (r: string)
    ensures |r| == |s|
    ensures forall i :: 0 <= i < |s| ==> r[i] == LowerChar(s[i])
  {
    if s == [] then [] else [LowerChar(s[0])] + ToLower(s[1..])
  }

  /** `toUpperCase`, restricted to the ASCII letters. */
  function ToUpper(s: string): (r: string)
    ensures |r| == |s|
    ensures forall i :: 0 <= i < |s| ==> r[i] == UpperChar(s[i])
  {
    if s == [] then [] else [UpperChar(s[0])] + ToUpper(s[1..])
  }

  /** Lower-casing forgets the case the text was typed in: lower-casing a lower-cased or an
      upper-cased text gives the same as lower-casing the original. */
  lemma ToLowerForgetsCase(s: string)
    ensures ToLower(ToLower(s)) == ToLower(s)
    ensures ToLower(ToUpper(s)) == ToLower(s)
  {
    assert forall i :: 0 <= i < |s| ==> LowerChar(UpperChar(s[i])) == LowerChar(s[i]);
  }

  /** `sub` occurs in `s` starting at index `i`. */
  predicate OccursAt(s: string, sub: string, i: int) {
    0 <= i && i + |sub| <= |s| && s[i..i + |sub|] == sub
  }

  /** Whether `sub` occurs in `s` at index `k` or later. */
  function ContainsFrom(s: string, sub: string, k: nat): (r: bool)
    ensures r <==> exists i :: k <= i && OccursAt(s, sub, i)
    decreases |s| - k
  {
    if k + |sub| > |s| then false
    else if s[k..k + |sub|] == sub then
      assert OccursAt(s, sub, k);
      true
    else
      var r := ContainsFrom(s, sub, k + 1);
      assert !OccursAt(s, sub, k);
      r
  }

  /** `String.prototype.includes`. */
  function Contains(s: string, sub: string): (r: bool)
    ensures r <==> exists i :: OccursAt(s, sub, i)
  {
    ContainsFrom(s, sub, 0)
  }

  /** The replacement the regular expression `/([A-Z])/g` makes for one character. */
  function SnakeChar(c: char): (r: string)
    ensures IsUpper(c) ==> r == ['_', LowerChar(c)]
    ensures !IsUpper(c) ==> r == [c]
  {
    if IsUpper(c) then ['_', LowerChar(c)] else [c]
  }

  function CountUpper(s: string): nat {
    if s == [] then 0 else (if IsUpper(s[0]) then 1 else 0) + CountUpper(s[1..])
  }

  /** `id.replace(/([A-Z])/g, m => '_' + m.toLowerCase())`: every ASCII capital becomes an
      underscore followed by its lower-case letter. */
  function CamelToSnake(s: string): (r: string)
    ensures |r| == |s| + CountUpper(s)
    ensures forall i :: 0 <= i < |r| ==> !IsUpper(r[i])
  {
    if s == [] then [] else SnakeChar(s[0]) + CamelToSnake(s[1..])
  }

  /** The inverse rewrite: an underscore followed by a lower-case letter becomes that capital. */
  function SnakeToCamel(s: string): string {
    if s == [] then []
    else if |s| >= 2 && s[0] == '_' && IsLower(s[1]) then [UpperChar(s[1])] + SnakeToCamel(s[2..])
    else [s[0]] + SnakeToCamel(s[1..])
  }

  /** The rewrite loses nothing on identifiers that contain no underscore. */
  lemma {:induction false} SnakeToCamelInvertsCamelToSnake(s: string)
    requires '_' !in s
    ensures SnakeToCamel(CamelToSnake(s)) == s
  {
    if s != [] {
      var rest := CamelToSnake(s[1..]);
      assert '_' !in s[1..] by {
        assert forall c :: c in s[1..] ==> c in s;
      }
      SnakeToCamelInvertsCamelToSnake(s[1..]);
      if IsUpper(s[0]) {
        assert CamelToSnake(s) == ['_', LowerChar(s[0])] + rest;
        assert (['_', LowerChar(s[0])] + rest)[2..] == rest;
      } else {
        assert CamelToSnake(s) == [s[0]] + rest;
        assert ([s[0]] + rest)[1..] == rest;
      }
    }
  }

  /** The rewrite changes an identifier exactly when it holds a capital letter. */
  lemma {:induction false} CamelToSnakeFixedIffNoUpper(s: string)
    ensures CamelToSnake(s) == s <==> forall i :: 0 <= i < |s| ==> !IsUpper(s[i])
  {
    if s != [] && forall i :: 0 <= i < |s| ==> !IsUpper(s[i]) {
      CamelToSnakeFixedIffNoUpper(s[1..]);
      assert s == [s[0]] + s[1..];
    }
  }

  /** The rewrite works character by character, so it distributes over concatenation. */
  lemma {:induction false} CamelToSnakeAppend(a: string, b: string)
    ensures CamelToSnake(a + b) == CamelToSnake(a) + CamelToSnake(b)
  {
    if a == [] {
      assert a + b == b;
    } else {
      assert (a + b)[0] == a[0];
      assert (a + b)[1..] == a[1..] + b;
      CamelToSnakeAppend(a[1..], b);
    }
  }

  /** An occurrence in a slice is an occurrence in the whole text, shifted. */
  lemma OccursInSlice(whole: string, i: int, j: int, kw: string, p: int)
    requires 0 <= i <= j <= |whole| && OccursAt(whole[i..j], kw, p)
    ensures OccursAt(whole, kw, p + i)
  {
    var a, b := whole[p + i..p + i + |kw|], whole[i..j][p..p + |kw|];
    assert |a| == |b|;
    forall k | 0 <= k < |a|
      ensures a[k] == b[k]
    {
      assert a[k] == whole[p + i + k];
      assert b[k] == whole[i..j][p + k];
    }
  }

  /** Lower-case letters are not white space, and lower-casing leaves white space alone. */
  lemma LetterIsNotSpace(c: char)
    ensures IsLower(c) ==> !IsSpace(c)
    ensures IsSpace(c) ==> LowerChar(c) == c
  {
  }

  /** A character of the lower-cased text that is a letter sits at a non-space of the text. */
  lemma LowerLetterAt(s: string, p: int)
    requires 0 <= p < |s| && IsLower(ToLower(s)[p])
    ensures !IsSpace(s[p])
  {
    LetterIsNotSpace(s[p]);
    LetterIsNotSpace(ToLower(s)[p]);
  }

  /** A non-space character lies at or after the end of an all-space prefix. */
  lemma SpacePrefixEndsBefore(s: string, i: int, p: int)
    requires 0 <= i <= |s| && AllSpace(s[..i])
    requires 0 <= p < |s| && !IsSpace(s[p])
    ensures i <= p
  {
    assert forall k :: 0 <= k < i ==> s[..i][k] == s[k];
  }

  /** A non-space character lies before the start of an all-space suffix. */
  lemma SpaceSuffixStartsAfter(s: string, j: int, e: int)
    requires 0 <= j <= |s| && AllSpace(s[j..])
    requires 0 <= e < |s| && !IsSpace(s[e])
    ensures e < j
  {
    assert forall k :: j <= k < |s| ==> s[j..][k - j] == s[k];
  }

  /** An occurrence of a keyword of letters lies between an all-space prefix and an all-space suffix. */
  lemma OccurrenceInsideCut(s: string, i: int, j: int, kw: string, p: int)
    requires 0 <= i <= j <= |s| && AllSpace(s[..i]) && AllSpace(s[j..])
    requires kw != [] && forall k :: 0 <= k < |kw| ==> IsLower(kw[k])
    requires OccursAt(ToLower(s), kw, p)
    ensures i <= p && p + |kw| <= j
  {
    var e := p + |kw| - 1;
    var ls := ToLower(s);
    assert ls[p] == ls[p..p + |kw|][0] == kw[0];
    assert ls[e] == ls[p..p + |kw|][|kw| - 1] == kw[|kw| - 1];
    LowerLetterAt(s, p);
    LowerLetterAt(s, e);
    SpacePrefixEndsBefore(s, i, p);
    SpaceSuffixStartsAfter(s, j, e);
  }

  /** An occurrence that lies inside a slice is an occurrence in the slice. */
  lemma OccursInsideSlice(whole: string, i: int, j: int, kw: string, p: int)
    requires 0 <= i <= p && p + |kw| <= j <= |whole| && OccursAt(whole, kw, p)
    ensures OccursAt(whole[i..j], kw, p - i)
  {
    var a, b := whole[i..j][p - i..p - i + |kw|], whole[p..p + |kw|];
    assert |a| == |b|;
    forall k | 0 <= k < |kw|
      ensures a[k] == b[k]
    {
      assert a[k] == whole[p + k];
    }
  }

  /** Lower-casing commutes with taking a slice. */
  lemma ToLowerSlice(s: string, i: int, j: int)
    requires 0 <= i <= j <= |s|
    ensures ToLower(s[i..j]) == ToLower(s)[i..j]
  {
    var a, b := ToLower(s[i..j]), ToLower(s)[i..j];
    assert |a| == |b|;
    forall k | 0 <= k < |a|
      ensures a[k] == b[k]
    {
      assert a[k] == LowerChar(s[i..j][k]);
      assert s[i..j][k] == s[i + k];
    }
  }

  /** Trimming cannot cut into a keyword of lower-case letters: it occurs in the lower-cased
      trimmed text exactly when it occurs in the lower-cased text. */
  lemma ContainsIgnoresTrim(s: string, kw: string)
    requires kw != [] && forall k :: 0 <= k < |kw| ==> IsLower(kw[k])
    ensures Contains(ToLower(Trim(s)), kw) <==> Contains(ToLower(s), kw)
  {
    var t := Trim(s);
    var i, j :| 0 <= i <= j <= |s| && AllSpace(s[..i]) && AllSpace(s[j..]) && t == s[i..j];
    var ls := ToLower(s);
    ToLowerSlice(s, i, j);
    if Contains(ls[i..j], kw) {
      var p :| OccursAt(ls[i..j], kw, p);
      OccursInSlice(ls, i, j, kw, p);
    }
    if Contains(ls, kw) {
      var p :| OccursAt(ls, kw, p);
      OccurrenceInsideCut(s, i, j, kw, p);
      OccursInsideSlice(ls, i, j, kw, p);
    }
  }
}

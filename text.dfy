/** Character and string primitives the TypeScript source takes from its
    runtime: `toLowerCase`, `trim`, `includes`, `Array.prototype.join`,
    number-to-string conversion and string ordering. */
module Text {

  /** JavaScript's `\s` class; `String.prototype.trim` removes the same set. */
  predicate IsSpace(c: char) {
    var n := c as int;
    n == 0x09 || n == 0x0A || n == 0x0B || n == 0x0C || n == 0x0D || n == 0x20
    || n == 0xA0 || n == 0x1680 || (0x2000 <= n <= 0x200A) || n == 0x2028
    || n == 0x2029 || n == 0x202F || n == 0x205F || n == 0x3000 || n == 0xFEFF
  }

  predicate IsUpper(c: char) { 'A' <= c <= 'Z' }

  predicate IsLower(c: char) { 'a' <= c <= 'z' }

  predicate IsDigit(c: char) { '0' <= c <= '9' }

  /** `toLowerCase` on one character; only ASCII letters are mapped. */
  function LowerChar(c: char): char {
    if IsUpper(c) then (c as int + 32) as char else c
  }

  function Lower(s: string): (r: string)
    ensures |r| == |s|
  {
    seq(|s|, i requires 0 <= i < |s| => LowerChar(s[i]))
  }

  lemma LowerConcat(a: string, b: string)
    ensures Lower(a + b) == Lower(a) + Lower(b)
  {
  }

  /** Text without ASCII capitals is its own lowercase. */
  lemma LowerWithoutCapitals(s: string)
    requires forall i | 0 <= i < |s| :: !IsUpper(s[i])
    ensures Lower(s) == s
  {
  }

  /** Lowercasing is idempotent and leaves no ASCII capital behind. */
  lemma LowerIdempotent(s: string)
    ensures Lower(Lower(s)) == Lower(s)
    ensures forall i | 0 <= i < |s| :: !IsUpper(Lower(s)[i])
  {
  }

  // ---------------------------------------------------------------------
  // trim

  /** What is left after dropping the longest whitespace prefix. */
  function TrimStart(s: string): (r: string)
    ensures |r| <= |s| && r == s[|s| - |r|..]
    ensures r != [] ==> !IsSpace(r[0])
    ensures forall i | 0 <= i < |s| - |r| :: IsSpace(s[i])
  {
    if s != [] && IsSpace(s[0]) then TrimStart(s[1..]) else s
  }

  /** What is left after dropping the longest whitespace suffix. */
  function TrimEnd(s: string): (r: string)
    ensures |r| <= |s| && r == s[..|r|]
    ensures r != [] ==> !IsSpace(r[|r| - 1])
    ensures forall i | |r| <= i < |s| :: IsSpace(s[i])
  {
    if s != [] && IsSpace(s[|s| - 1]) then TrimEnd(s[..|s| - 1]) else s
  }

  /** `String.prototype.trim`. */
  function Trim(s: string): string {
    TrimEnd(TrimStart(s))
  }

  /** A string with no whitespace at either end is its own trim, and only such
      a string is. */
  lemma {:induction false} TrimFixedPoint(s: string)
    ensures Trim(s) == s <==> (s == [] || (!IsSpace(s[0]) && !IsSpace(s[|s| - 1])))
  {
    if s != [] && !IsSpace(s[0]) && !IsSpace(s[|s| - 1]) {
      assert TrimStart(s) == s;
      assert TrimEnd(s) == s;
    }
  }

  /** `trim` removes exactly the surrounding whitespace: what it returns is a
      contiguous slice of the input with only whitespace around it. */
  lemma TrimIsSlice(s: string)
    ensures exists a, b | 0 <= a <= b <= |s| ::
      (Trim(s) == s[a..b]
       && (forall i | 0 <= i < a :: IsSpace(s[i]))
       && (forall i | b <= i < |s| :: IsSpace(s[i])))
  {
    var t := TrimStart(s);
    var a := |s| - |t|;
    var r := TrimEnd(t);
    var b := a + |r|;
    assert r == s[a..b];
  }

  lemma TrimIdempotent(s: string)
    ensures Trim(Trim(s)) == Trim(s)
  {
    TrimFixedPoint(Trim(s));
  }

  // ---------------------------------------------------------------------
  // includes

  /** `t` occurs in `s` starting at index `i`. */
  predicate OccursAt(s: string, t: string, i: int) {
    0 <= i && i + |t| <= |s| && s[i..i + |t|] == t
  }

  /** `s.includes(t)`. */
  predicate Contains(s: string, t: string) {
    exists i | 0 <= i <= |s| - |t| :: OccursAt(s, t, i)
  }

  lemma ContainsMiddle(a: string, b: string, c: string)
    ensures Contains(a + b + c, b)
  {
    assert OccursAt(a + b + c, b, |a|);
  }

  /** An occurrence inside a part is an occurrence in the whole. */
  lemma ContainsInfix(a: string, m: string, b: string, t: string)
    requires Contains(m, t)
    ensures Contains(a + m + b, t)
  {
    var i :| 0 <= i <= |m| - |t| && OccursAt(m, t, i);
    assert (a + m + b)[|a| + i..|a| + i + |t|] == m[i..i + |t|];
    assert OccursAt(a + m + b, t, |a| + i);
  }

  /** The same for a lowercase search, which lowercases the whole text. */
  lemma ContainsLowerInfix(a: string, m: string, b: string, t: string)
    requires Contains(Lower(m), t)
    ensures Contains(Lower(a + m + b), t)
  {
    LowerConcat(a + m, b);
    LowerConcat(a, m);
    ContainsInfix(Lower(a), Lower(m), Lower(b), t);
  }

  // ---------------------------------------------------------------------
  // trigram absence: a cheap certificate that a pattern does not occur

  /** No three consecutive characters of `s`, lowercased, spell `g`. */
  predicate LacksTrigram(s: string, g: string)
    requires |g| == 3
  {
    forall i | 0 <= i < |s| - 2 ::
      !(LowerChar(s[i]) == g[0] && LowerChar(s[i + 1]) == g[1] && LowerChar(s[i + 2]) == g[2])
  }

  predicate IsLetter(c: char) { IsUpper(c) || IsLower(c) }

  /** A trigram of lowercase letters, the kind the absence certificates use. */
  predicate IsGram(g: string) {
    |g| == 3 && IsLower(g[0]) && IsLower(g[1]) && IsLower(g[2])
  }

  /** The characters that lowercase to a lowercase letter are the letter
      and its capital. */
  lemma LowerCharIs(c: char, a: char)
    requires IsLower(a)
    ensures LowerChar(c) == a <==> c == a || c as int == a as int - 32
  {
  }

  /** A non-letter, lowercased, is none of the letters of a letter trigram. */
  lemma NonLetterOutsideGram(c: char, g: string)
    requires IsGram(g) && !IsLetter(c)
    ensures LowerChar(c) !in g
  {
  }

  /** A string without letters lacks every letter trigram. */
  lemma NoLettersLack(s: string, g: string)
    requires IsGram(g) && forall i | 0 <= i < |s| :: !IsLetter(s[i])
    ensures LacksTrigram(s, g)
  {
    forall i | 0 <= i < |s| - 2
      ensures !(LowerChar(s[i]) == g[0] && LowerChar(s[i + 1]) == g[1] && LowerChar(s[i + 2]) == g[2])
    {
      assert !IsLetter(s[i]);
    }
  }

  /** A lowercase search for a pattern fails when the text lacks one of the
      pattern's trigrams. */
  lemma LacksTrigramExcludes(s: string, t: string, j: nat)
    requires j + 3 <= |t| && LacksTrigram(s, t[j..j + 3])
    ensures !Contains(Lower(s), t)
  {
    var g := t[j..j + 3];
    forall i | 0 <= i <= |s| - |t|
      ensures !OccursAt(Lower(s), t, i)
    {
      assert !(LowerChar(s[i + j]) == g[0] && LowerChar(s[i + j + 1]) == g[1] && LowerChar(s[i + j + 2]) == g[2]);
      assert t[j] == g[0] && t[j + 1] == g[1] && t[j + 2] == g[2];
      assert Lower(s)[i..i + |t|][j] == Lower(s)[i + j];
    }
  }

  /** Gluing two trigram-free strings cannot create the trigram when a
      character at the seam is not one of its letters. */
  lemma LacksTrigramConcat(a: string, b: string, g: string)
    requires |g| == 3 && LacksTrigram(a, g) && LacksTrigram(b, g)
    requires a == [] || b == [] || LowerChar(a[|a| - 1]) !in g || LowerChar(b[0]) !in g
    ensures LacksTrigram(a + b, g)
  {
    var s := a + b;
    forall i | 0 <= i < |s| - 2
      ensures !(LowerChar(s[i]) == g[0] && LowerChar(s[i + 1]) == g[1] && LowerChar(s[i + 2]) == g[2])
    {
      if i + 2 < |a| {
        assert s[i] == a[i] && s[i + 1] == a[i + 1] && s[i + 2] == a[i + 2];
      } else if i >= |a| {
        assert s[i] == b[i - |a|] && s[i + 1] == b[i + 1 - |a|] && s[i + 2] == b[i + 2 - |a|];
      } else if i + 2 == |a| {
        assert s[i + 1] == a[|a| - 1] && s[i + 2] == b[0];
      } else {
        assert s[i] == a[|a| - 1] && s[i + 1] == b[0];
      }
    }
  }

  /** Gluing at a non-letter cannot create a letter trigram. */
  lemma LacksTrigramGlue(a: string, b: string, g: string)
    requires IsGram(g) && LacksTrigram(a, g) && LacksTrigram(b, g)
    requires a == [] || b == [] || !IsLetter(a[|a| - 1]) || !IsLetter(b[0])
    ensures LacksTrigram(a + b, g)
  {
    if a != [] && b != [] {
      if !IsLetter(a[|a| - 1]) {
        assert LowerChar(a[|a| - 1]) == a[|a| - 1];
        assert LowerChar(a[|a| - 1]) !in g;
      } else {
        assert LowerChar(b[0]) == b[0];
        assert LowerChar(b[0]) !in g;
      }
    }
    LacksTrigramConcat(a, b, g);
  }

  // ---------------------------------------------------------------------
  // Array.prototype.join

  function Join(parts: seq<string>, sep: string): string {
    if |parts| == 0 then ""
    else if |parts| == 1 then parts[0]
    else parts[0] + sep + Join(parts[1..], sep)
  }

  lemma {:induction false} JoinAppend(a: seq<string>, b: seq<string>, sep: string)
    requires a != [] && b != []
    ensures Join(a + b, sep) == Join(a, sep) + sep + Join(b, sep)
  {
    if |a| == 1 {
      assert (a + b)[1..] == b;
    } else {
      assert (a + b)[1..] == a[1..] + b;
      JoinAppend(a[1..], b, sep);
    }
  }

  /** The text a join puts before a part that follows `a`. */
  function JoinedBefore(a: seq<string>, sep: string): string {
    if a == [] then "" else Join(a, sep) + sep
  }

  /** The text a join puts after a part when at most one part `c` follows. */
  function JoinedAfter(c: seq<string>, sep: string): string {
    if c == [] then "" else sep + c[0]
  }

  lemma JoinLastTwo(m: string, c: seq<string>, sep: string)
    requires |c| <= 1
    ensures Join([m] + c, sep) == m + JoinedAfter(c, sep)
  {
    if c != [] {
      assert ([m] + c)[1..] == c;
    } else {
      assert [m] + c == [m];
    }
  }

  /** Joining a prefix, one middle part and at most one last part. */
  lemma JoinThree(a: seq<string>, m: string, c: seq<string>, sep: string)
    requires |c| <= 1
    ensures Join(a + [m] + c, sep) == JoinedBefore(a, sep) + m + JoinedAfter(c, sep)
  {
    JoinLastTwo(m, c, sep);
    if a != [] {
      JoinAppend(a, [m] + c, sep);
      assert a + [m] + c == a + ([m] + c);
    } else {
      assert a + [m] + c == [m] + c;
    }
  }

  /** Every part of a join, with the separators around it, sits inside the
      joined string: the text before part k is the join of the parts before it. */
  lemma {:induction false} JoinAround(parts: seq<string>, sep: string, k: nat)
    requires k < |parts|
    ensures Join(parts, sep) ==
      (if k == 0 then "" else Join(parts[..k], sep) + sep)
      + parts[k]
      + (if k == |parts| - 1 then "" else sep + Join(parts[k + 1..], sep))
  {
    if k > 0 {
      JoinAppend(parts[..k], parts[k..], sep);
      assert parts[..k] + parts[k..] == parts;
    }
    if k < |parts| - 1 {
      assert parts[k..] == [parts[k]] + parts[k + 1..];
      JoinAppend([parts[k]], parts[k + 1..], sep);
    }
  }

  lemma {:induction false} LacksTrigramJoin(parts: seq<string>, sep: string, g: string)
    requires |g| == 3 && |sep| > 0 && LacksTrigram(sep, g)
    requires LowerChar(sep[0]) !in g && LowerChar(sep[|sep| - 1]) !in g
    requires forall k | 0 <= k < |parts| :: LacksTrigram(parts[k], g)
    ensures LacksTrigram(Join(parts, sep), g)
  {
    if |parts| > 1 {
      var rest := Join(parts[1..], sep);
      assert forall k | 0 <= k < |parts[1..]| :: parts[1..][k] == parts[k + 1];
      LacksTrigramJoin(parts[1..], sep, g);
      LacksTrigramConcat(sep, rest, g);
      LacksTrigramConcat(parts[0], sep + rest, g);
      assert Join(parts, sep) == parts[0] + (sep + rest);
    }
  }

  // ---------------------------------------------------------------------
  // decimal numerals

  function DigitChar(d: nat): char
    requires d < 10
  {
    ('0' as int + d) as char
  }

  /** `String(n)` for a natural number. */
  function NatToString(n: nat): (r: string)
    ensures |r| >= 1 && (|r| == 1 <==> n < 10)
    ensures forall i | 0 <= i < |r| :: IsDigit(r[i])
    decreases n
  {
    if n < 10 then [DigitChar(n)] else NatToString(n / 10) + [DigitChar(n % 10)]
  }

  /** The value of a run of decimal digits, most significant first. */
  function DigitsValue(s: string): nat
    requires forall i | 0 <= i < |s| :: IsDigit(s[i])
  {
    if s == [] then 0
    else assert IsDigit(s[|s| - 1]); 10 * DigitsValue(s[..|s| - 1]) + (s[|s| - 1] as int - '0' as int)
  }

  /** Reading back a printed number gives the number. */
  lemma {:induction false} DigitsValueOfNatToString(n: nat)
    ensures DigitsValue(NatToString(n)) == n
    decreases n
  {
    if n >= 10 {
      var s := NatToString(n);
      assert s[..|s| - 1] == NatToString(n / 10);
      DigitsValueOfNatToString(n / 10);
    }
  }

  /** Different numbers print differently. */
  lemma NatToStringInjective(a: nat, b: nat)
    requires NatToString(a) == NatToString(b)
    ensures a == b
  {
    DigitsValueOfNatToString(a);
    DigitsValueOfNatToString(b);
  }

  // ---------------------------------------------------------------------
  // string ordering

  /** Code-unit lexicographic order: `a` sorts no later than `b`. */
  predicate StrLe(a: string, b: string) {
    a == [] || (b != [] && (a[0] < b[0] || (a[0] == b[0] && StrLe(a[1..], b[1..]))))
  }

  lemma {:induction false} StrLeTotal(a: string, b: string)
    ensures StrLe(a, b) || StrLe(b, a)
  {
    if a != [] && b != [] && a[0] == b[0] {
      StrLeTotal(a[1..], b[1..]);
    }
  }

  lemma {:induction false} StrLeTransitive(a: string, b: string, c: string)
    requires StrLe(a, b) && StrLe(b, c)
    ensures StrLe(a, c)
  {
    if a != [] && b != [] && c != [] && a[0] == b[0] && b[0] == c[0] {
      StrLeTransitive(a[1..], b[1..], c[1..]);
    }
  }
}

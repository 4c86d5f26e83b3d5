/** URL slugs for personas: the `createSlug` pipeline shared by persona
    creation and the slug migration, and the loop that appends `-1`, `-2`, …
    until the slug is free. */
module Slugs {
  import opened Text

  /** JavaScript's `\w` without the `u` flag: ASCII letters, digits and `_`. */
  predicate IsWordChar(c: char) {
    IsUpper(c) || IsLower(c) || IsDigit(c) || c == '_'
  }

  /** What survives `.replace(/[^\w\s-]/g, '')`. */
  predicate IsKept(c: char) {
    IsWordChar(c) || IsSpace(c) || c == '-'
  }

  /** The characters a finished slug is made of. */
  predicate IsSlugChar(c: char) {
    IsLower(c) || IsDigit(c) || c == '_' || c == '-'
  }

  predicate IsHyphen(c: char) { c == '-' }

  function Keep(s: string): (r: string)
    ensures forall i | 0 <= i < |r| :: IsKept(r[i])
  {
    if s == [] then []
    else (if IsKept(s[0]) then [s[0]] else []) + Keep(s[1..])
  }

  /** The word characters of `s`, in order: what a slug retains of a name. */
  function WordChars(s: string): string {
    if s == [] then []
    else (if IsWordChar(s[0]) then [s[0]] else []) + WordChars(s[1..])
  }

  /** The length of the run of `inRun` characters that starts `s`. */
  function RunLength(s: string, inRun: char -> bool): (n: nat)
    ensures n <= |s| && (n == |s| || !inRun(s[n]))
    ensures forall i | 0 <= i < n :: inRun(s[i])
  {
    if s != [] && inRun(s[0]) then 1 + RunLength(s[1..], inRun) else 0
  }

  /** A global replace of the regex `X+` by `-`, where `X` is the character
      class `inRun`: each maximal run becomes a single hyphen. */
  function Squeeze(s: string, inRun: char -> bool): string
    decreases |s|
  {
    if s == [] then []
    else if inRun(s[0]) then "-" + Squeeze(s[1..][RunLength(s[1..], inRun)..], inRun)
    else [s[0]] + Squeeze(s[1..], inRun)
  }

  /** `createSlug` in scripts/migrate-slugs.ts and the inline pipeline of
      `createPatientActor`: lowercase, drop everything outside `[\w\s-]`,
      turn whitespace runs into `-`, collapse hyphen runs, trim. */
  function CreateSlug(name: string): (r: string)
    ensures SlugText(r)
  {
    SqueezedShape(name);
    SlugTextMeans(Squeezed(name));
    Trim(Squeezed(name))
  }

  /** The pipeline before the final trim. */
  function Squeezed(name: string): string {
    Squeeze(Squeeze(Keep(Lower(name)), IsSpace), IsHyphen)
  }

  /** No two hyphens are adjacent. */
  predicate NoDoubleHyphen(s: string) {
    forall i | 0 <= i < |s| - 1 :: !(s[i] == '-' && s[i + 1] == '-')
  }

  /** Slug characters only, no two hyphens in a row, read left to right. */
  predicate SlugText(s: string)
    decreases |s|
  {
    s == [] || (IsSlugChar(s[0]) && (|s| > 1 ==> !(s[0] == '-' && s[1] == '-')) && SlugText(s[1..]))
  }

  lemma {:induction false} SlugTextMeans(s: string)
    ensures SlugText(s) <==> (forall i | 0 <= i < |s| :: IsSlugChar(s[i])) && NoDoubleHyphen(s)
    decreases |s|
  {
    if s != [] {
      var t := s[1..];
      SlugTextMeans(t);
      assert forall i | 0 <= i < |t| :: t[i] == s[i + 1];
      if (forall i | 0 <= i < |s| :: IsSlugChar(s[i])) && NoDoubleHyphen(s) {
        assert forall i | 0 <= i < |t| :: IsSlugChar(t[i]);
        assert NoDoubleHyphen(t) by {
          forall i | 0 <= i < |t| - 1 ensures !(t[i] == '-' && t[i + 1] == '-') {
            assert !(s[i + 1] == '-' && s[i + 2] == '-');
          }
        }
      }
      if SlugText(s) {
        forall i | 0 <= i < |s| ensures IsSlugChar(s[i]) {
          if i > 0 { assert s[i] == t[i - 1]; }
        }
        forall i | 0 <= i < |s| - 1 ensures !(s[i] == '-' && s[i + 1] == '-') {
          if i > 0 { assert s[i] == t[i - 1] && s[i + 1] == t[i]; }
        }
      }
    }
  }

  // ---------------------------------------------------------------------
  // properties of the stages

  /** Every character of the squeezed text has a property that `-` and every
      character of the input have. */
  lemma {:induction false} SqueezeAll(s: string, inRun: char -> bool, q: char -> bool)
    requires q('-') && forall i | 0 <= i < |s| :: q(s[i])
    ensures forall i | 0 <= i < |Squeeze(s, inRun)| :: q(Squeeze(s, inRun)[i])
    decreases |s|
  {
    if s != [] {
      if inRun(s[0]) {
        var n := RunLength(s[1..], inRun);
        var rest := s[1..][n..];
        forall i | 0 <= i < |rest| ensures q(rest[i]) {
          assert rest[i] == s[1 + n + i];
        }
        SqueezeAll(rest, inRun, q);
        var r := Squeeze(s, inRun);
        assert r == "-" + Squeeze(rest, inRun);
        forall i | 0 <= i < |r| ensures q(r[i]) {
          if i > 0 { assert r[i] == Squeeze(rest, inRun)[i - 1]; }
        }
      } else {
        assert q(s[0]);
        SqueezeAll(s[1..], inRun, q);
        var r := Squeeze(s, inRun);
        assert r == [s[0]] + Squeeze(s[1..], inRun);
        forall i | 0 <= i < |r| ensures q(r[i]) {
          if i > 0 { assert r[i] == Squeeze(s[1..], inRun)[i - 1]; }
        }
      }
    }
  }

  /** Squeezing a class that does not occur changes nothing. */
  lemma {:induction false} SqueezeAbsent(s: string, inRun: char -> bool)
    requires forall i | 0 <= i < |s| :: !inRun(s[i])
    ensures Squeeze(s, inRun) == s
    decreases |s|
  {
    if s != [] {
      SqueezeAbsent(s[1..], inRun);
    }
  }

  /** A squeezed text starts with the text's first character when that one is
      outside the class. */
  lemma SqueezeHead(s: string, inRun: char -> bool)
    requires s != [] && !inRun(s[0])
    ensures Squeeze(s, inRun) != [] && Squeeze(s, inRun)[0] == s[0]
  {
  }

  /** After collapsing hyphen runs no two hyphens are adjacent. */
  lemma {:induction false} SqueezeHyphensSingle(s: string)
    ensures NoDoubleHyphen(Squeeze(s, IsHyphen))
    decreases |s|
  {
    if s != [] {
      if IsHyphen(s[0]) {
        var rest := s[1..][RunLength(s[1..], IsHyphen)..];
        SqueezeHyphensSingle(rest);
        if rest != [] {
          SqueezeHead(rest, IsHyphen);
        }
      } else {
        SqueezeHyphensSingle(s[1..]);
      }
    }
  }

  /** Collapsing hyphen runs leaves a text with no doubled hyphen as it is. */
  lemma {:induction false} SqueezeHyphensSingleFixed(s: string)
    requires NoDoubleHyphen(s)
    ensures Squeeze(s, IsHyphen) == s
    decreases |s|
  {
    if s != [] {
      if IsHyphen(s[0]) {
        assert RunLength(s[1..], IsHyphen) == 0;
        assert s[1..][0..] == s[1..];
      }
      SqueezeHyphensSingleFixed(s[1..]);
    }
  }

  lemma {:induction false} WordCharsConcat(a: string, b: string)
    ensures WordChars(a + b) == WordChars(a) + WordChars(b)
    decreases |a|
  {
    if a == [] {
      assert a + b == b;
    } else {
      assert (a + b)[0] == a[0] && (a + b)[1..] == a[1..] + b;
      WordCharsConcat(a[1..], b);
      var h := if IsWordChar(a[0]) then [a[0]] else [];
      assert WordChars(a + b) == h + WordChars(a[1..] + b);
      assert WordChars(a) == h + WordChars(a[1..]);
      assert h + (WordChars(a[1..]) + WordChars(b)) == (h + WordChars(a[1..])) + WordChars(b);
    }
  }

  lemma {:induction false} WordCharsOfRun(s: string, n: nat, inRun: char -> bool)
    requires n <= |s| && forall i | 0 <= i < n :: inRun(s[i]) && !IsWordChar(s[i])
    ensures WordChars(s[n..]) == WordChars(s)
    decreases n
  {
    if n > 0 {
      assert s[1..][n - 1..] == s[n..];
      WordCharsOfRun(s[1..], n - 1, inRun);
    }
  }

  /** Squeezing a class of non-word characters keeps every word character, in
      order. */
  lemma {:induction false} SqueezeKeepsWords(s: string, inRun: char -> bool)
    requires forall c :: inRun(c) ==> !IsWordChar(c)
    ensures WordChars(Squeeze(s, inRun)) == WordChars(s)
    decreases |s|
  {
    if s != [] {
      if inRun(s[0]) {
        var n := RunLength(s[1..], inRun);
        var rest := s[1..][n..];
        SqueezeKeepsWords(rest, inRun);
        WordCharsConcat("-", Squeeze(rest, inRun));
        WordCharsOfRun(s[1..], n, inRun);
      } else {
        SqueezeKeepsWords(s[1..], inRun);
        WordCharsConcat([s[0]], Squeeze(s[1..], inRun));
      }
    }
  }

  lemma {:induction false} KeepKeepsWords(s: string)
    ensures WordChars(Keep(s)) == WordChars(s)
  {
    if s != [] {
      KeepKeepsWords(s[1..]);
      WordCharsConcat(if IsKept(s[0]) then [s[0]] else [], Keep(s[1..]));
    }
  }

  lemma {:induction false} KeepAllKept(s: string)
    requires forall i | 0 <= i < |s| :: IsKept(s[i])
    ensures Keep(s) == s
  {
    if s != [] {
      KeepAllKept(s[1..]);
    }
  }

  // ---------------------------------------------------------------------
  // properties of the whole pipeline

  predicate NotUpper(c: char) { !IsUpper(c) }

  predicate KeptLower(c: char) { IsKept(c) && !IsUpper(c) }

  /** The characters of the name once lower-cased and filtered. */
  lemma KeptChars(name: string)
    ensures forall i | 0 <= i < |Keep(Lower(name))| :: KeptLower(Keep(Lower(name))[i])
  {
    LowerIdempotent(name);
    KeepAll(Lower(name), NotUpper);
  }

  lemma {:induction false} KeepAll(s: string, q: char -> bool)
    requires forall i | 0 <= i < |s| :: q(s[i])
    ensures forall i | 0 <= i < |Keep(s)| :: q(Keep(s)[i])
  {
    if s != [] {
      assert q(s[0]);
      KeepAll(s[1..], q);
      var k := Keep(s);
      var h := if IsKept(s[0]) then [s[0]] else [];
      assert k == h + Keep(s[1..]);
      forall i | 0 <= i < |k| ensures q(k[i]) {
        if i >= |h| { assert k[i] == Keep(s[1..])[i - |h|]; }
      }
    }
  }

  /** The squeezed text before `trim`: `trim` then has nothing to remove,
      since no whitespace is left, so a slug may start or end with `-`. */
  /** The squeezed text holds only slug characters, no doubled hyphen and no
      whitespace, so the trim has nothing left to remove. */
  lemma SqueezedShape(name: string)
    ensures forall i | 0 <= i < |Squeezed(name)| :: IsSlugChar(Squeezed(name)[i])
    ensures NoDoubleHyphen(Squeezed(name))
    ensures Trim(Squeezed(name)) == Squeezed(name)
  {
    var kept := Keep(Lower(name));
    KeptChars(name);
    var spaced := Squeeze(kept, IsSpace);
    SqueezeAll(kept, IsSpace, KeptLower);
    SqueezeNoRun(kept, IsSpace);
    forall i | 0 <= i < |spaced| ensures IsSlugChar(spaced[i]) {
      assert KeptLower(spaced[i]);
    }
    SqueezeAll(spaced, IsHyphen, IsSlugChar);
    var s := Squeeze(spaced, IsHyphen);
    SqueezeHyphensSingle(spaced);
    forall i | 0 <= i < |s| ensures !IsSpace(s[i]) {
      assert IsSlugChar(s[i]);
    }
    TrimFixedPoint(s);
  }

  /** No character of the class survives the squeeze, unless it is `-`. */
  lemma {:induction false} SqueezeNoRun(s: string, inRun: char -> bool)
    ensures forall i | 0 <= i < |Squeeze(s, inRun)| :: Squeeze(s, inRun)[i] == '-' || !inRun(Squeeze(s, inRun)[i])
    decreases |s|
  {
    if s != [] {
      var r := Squeeze(s, inRun);
      if inRun(s[0]) {
        var rest := s[1..][RunLength(s[1..], inRun)..];
        SqueezeNoRun(rest, inRun);
        assert r == "-" + Squeeze(rest, inRun);
        forall i | 0 <= i < |r| ensures r[i] == '-' || !inRun(r[i]) {
          if i > 0 { assert r[i] == Squeeze(rest, inRun)[i - 1]; }
        }
      } else {
        SqueezeNoRun(s[1..], inRun);
        assert r == [s[0]] + Squeeze(s[1..], inRun);
        forall i | 0 <= i < |r| ensures r[i] == '-' || !inRun(r[i]) {
          if i > 0 { assert r[i] == Squeeze(s[1..], inRun)[i - 1]; }
        }
      }
    }
  }

  lemma SlugWords(name: string)
    ensures WordChars(CreateSlug(name)) == WordChars(Lower(name))
  {
    SqueezedShape(name);
    SqueezedWords(name);
  }

  lemma SqueezedWords(name: string)
    ensures WordChars(Squeezed(name)) == WordChars(Lower(name))
  {
    var kept := Keep(Lower(name));
    KeepKeepsWords(Lower(name));
    SqueezeKeepsWords(kept, IsSpace);
    SqueezeKeepsWords(Squeeze(kept, IsSpace), IsHyphen);
  }

  /** A slug is lower-case letters, digits, `_` and single hyphens, and it
      keeps every word character of the lower-cased name in order. */
  lemma CreateSlugShape(name: string)
    ensures forall i | 0 <= i < |CreateSlug(name)| :: IsSlugChar(CreateSlug(name)[i])
    ensures NoDoubleHyphen(CreateSlug(name))
    ensures WordChars(CreateSlug(name)) == WordChars(Lower(name))
  {
    SlugTextMeans(CreateSlug(name));
    SlugWords(name);
  }

  /** A slug passes through the pipeline unchanged. */
  lemma SlugFixed(s: string)
    requires forall i | 0 <= i < |s| :: IsSlugChar(s[i])
    requires NoDoubleHyphen(s)
    ensures CreateSlug(s) == s
  {
    LowerWithoutCapitals(s);
    KeepAllKept(s);
    SqueezeAbsent(s, IsSpace);
    SqueezeHyphensSingleFixed(s);
    TrimFixedPoint(s);
  }

  /** `createSlug` is idempotent. */
  lemma CreateSlugIdempotent(name: string)
    ensures CreateSlug(CreateSlug(name)) == CreateSlug(name)
  {
    CreateSlugShape(name);
    SlugFixed(CreateSlug(name));
  }

  // ---------------------------------------------------------------------
  // the uniqueness loop

  /** Candidate `k`: the base itself, then `${base}-${k}` for k = 1, 2, …;
      the suffix always goes on the original base. */
  function Candidate(base: string, k: nat): string {
    if k == 0 then base else base + "-" + NatToString(k)
  }

  /** Different counters give different candidates. */
  lemma CandidateInjective(base: string, i: nat, j: nat)
    requires Candidate(base, i) == Candidate(base, j)
    ensures i == j
  {
    if i != 0 && j != 0 {
      var n := |base| + 1;
      assert NatToString(i) == Candidate(base, i)[n..];
      assert NatToString(j) == Candidate(base, j)[n..];
      NatToStringInjective(i, j);
    }
  }

  /** The first candidate not in `taken`: `base` when it is free, otherwise
      the first free `base-k`, trying k = 1, 2, … in turn. */
  method FirstFreeSlug(taken: set<string>, base: string) returns (slug: string, k: nat)
    ensures slug == Candidate(base, k) && slug !in taken
    ensures forall j | 0 <= j < k :: Candidate(base, j) in taken
    ensures FirstFree(taken, base, slug)
  {
    var counter := 1;
    slug := base;
    ghost var tried: set<string> := {};
    while slug in taken
      invariant counter >= 1 && slug == Candidate(base, counter - 1)
      invariant forall j | 0 <= j < counter - 1 :: Candidate(base, j) in taken
      invariant tried <= taken
      invariant forall j: nat | j >= counter - 1 :: Candidate(base, j) !in tried
      decreases |taken - tried|
    {
      forall j: nat | j >= counter ensures Candidate(base, j) != slug {
        if Candidate(base, j) == slug {
          CandidateInjective(base, j, counter - 1);
        }
      }
      assert taken - (tried + {slug}) < taken - tried;
      tried := tried + {slug};
      slug := base + "-" + NatToString(counter);
      counter := counter + 1;
    }
    k := counter - 1;
  }

  /** `slug` is the first of `base`'s candidates that is not taken. */
  ghost predicate FirstFree(taken: set<string>, base: string, slug: string) {
    slug !in taken
    && exists k: nat :: slug == Candidate(base, k) && forall j | 0 <= j < k :: Candidate(base, j) in taken
  }

  /** There is only one first free candidate, so the slug a creation picks
      depends only on the slugs in use and the base. */
  lemma FirstFreeUnique(taken: set<string>, base: string, s1: string, s2: string)
    requires FirstFree(taken, base, s1) && FirstFree(taken, base, s2)
    ensures s1 == s2
  {
    var k1: nat :| s1 == Candidate(base, k1) && forall j | 0 <= j < k1 :: Candidate(base, j) in taken;
    var k2: nat :| s2 == Candidate(base, k2) && forall j | 0 <= j < k2 :: Candidate(base, j) in taken;
    if k1 != k2 {
      assert false;
    }
  }
}

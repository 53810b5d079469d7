/**
 * The JavaScript string operations the pages rely on: `toLowerCase` (ASCII
 * letters only), `includes` and `trim`.
 */
module Text {

  /** `toLowerCase` on one character, restricted to the ASCII letters. */
  function LowerChar(c: char): char {
    if 'A' <= c <= 'Z' then (c as int + 32) as char else c
  }

  /** The upper-case partner of an ASCII lower-case letter. */
  function UpperChar(c: char): char {
    if 'a' <= c <= 'z' then (c as int - 32) as char else c
  }

  /** `s.toLowerCase()`, character by character. */
  function Lower(s: string): (r: string)
    ensures |r| == |s|
  {
    if s == [] then [] else [LowerChar(s[0])] + Lower(s[1..])
  }

  /** `s.startsWith(t)`. */
  predicate IsPrefix(t: string, s: string) {
    |t| <= |s| && (t == [] || (s[0] == t[0] && IsPrefix(t[1..], s[1..])))
  }

  /** `s.includes(t)`: t occurs in s at some position. */
  predicate Includes(s: string, t: string)
    decreases |s|
  {
    IsPrefix(t, s) || (s != [] && Includes(s[1..], t))
  }

  /** Two strings that differ only in the case of their ASCII letters. */
  predicate SameUpToCase(a: string, b: string) {
    |a| == |b| && forall i :: 0 <= i < |a| ==> LowerChar(a[i]) == LowerChar(b[i])
  }

  /** The characters `String.prototype.trim` removes: WhiteSpace and LineTerminator. */
  predicate IsJsSpace(c: char) {
    var n := c as int;
    (0x09 <= n <= 0x0D) || n == 0x20 || n == 0xA0 || n == 0x1680 ||
    (0x2000 <= n <= 0x200A) || n == 0x2028 || n == 0x2029 || n == 0x202F ||
    n == 0x205F || n == 0x3000 || n == 0xFEFF
  }

  function TrimStart(s: string): (r: string)
    ensures |r| <= |s| && r == s[|s| - |r|..]
    ensures r != [] ==> !IsJsSpace(r[0])
    ensures forall i :: 0 <= i < |s| - |r| ==> IsJsSpace(s[i])
    ensures r == [] <==> forall i :: 0 <= i < |s| ==> IsJsSpace(s[i])
  {
    if s != [] && IsJsSpace(s[0]) then TrimStart(s[1..]) else s
  }

  function TrimEnd(s: string): (r: string)
    ensures |r| <= |s| && r == s[..|r|]
    ensures r != [] ==> !IsJsSpace(r[|r| - 1])
    ensures forall i :: |r| <= i < |s| ==> IsJsSpace(s[i])
    ensures r == [] <==> forall i :: 0 <= i < |s| ==> IsJsSpace(s[i])
  {
    if s != [] && IsJsSpace(s[|s| - 1]) then TrimEnd(s[..|s| - 1]) else s
  }

  /** `s.trim()`. */
  function Trim(s: string): string {
    TrimEnd(TrimStart(s))
  }

  /** `!s.trim()`: the trimmed string is empty, hence falsy. */
  predicate IsBlank(s: string) {
    Trim(s) == []
  }

  // ---------------------------------------------------------------------------
  // Lower-casing

  lemma {:induction false} LowerAt(s: string, i: nat)
    requires i < |s|
    ensures Lower(s)[i] == LowerChar(s[i])
  {
    if i > 0 { LowerAt(s[1..], i - 1); }
  }

  lemma {:induction false} LowerAppend(a: string, b: string)
    ensures Lower(a + b) == Lower(a) + Lower(b)
  {
    if a == [] {
      assert a + b == b;
    } else {
      assert (a + b)[1..] == a[1..] + b;
      LowerAppend(a[1..], b);
    }
  }

  /** Strings equal up to letter case have the same lower-case form, and conversely. */
  lemma SameUpToCaseIff(a: string, b: string)
    ensures SameUpToCase(a, b) <==> Lower(a) == Lower(b)
  {
    if SameUpToCase(a, b) {
      forall i | 0 <= i < |a| ensures Lower(a)[i] == Lower(b)[i] {
        LowerAt(a, i);
        LowerAt(b, i);
      }
    }
    if Lower(a) == Lower(b) {
      forall i | 0 <= i < |a| ensures LowerChar(a[i]) == LowerChar(b[i]) {
        LowerAt(a, i);
        LowerAt(b, i);
      }
    }
  }

  /** A lower-case letter appears in `Lower(s)` only if s has it in one case or the other. */
  lemma {:induction false} LowerHasChar(s: string, c: char)
    requires c in Lower(s) && 'a' <= c <= 'z'
    ensures c in s || UpperChar(c) in s
  {
    if s != [] && c != LowerChar(s[0]) {
      assert c in Lower(s[1..]);
      LowerHasChar(s[1..], c);
    }
  }

  // ---------------------------------------------------------------------------
  // includes

  /** `startsWith` agrees with comparing the leading slice. */
  lemma {:induction false} IsPrefixIff(t: string, s: string)
    ensures IsPrefix(t, s) <==> |t| <= |s| && s[..|t|] == t
  {
    if t != [] && |t| <= |s| {
      IsPrefixIff(t[1..], s[1..]);
      assert s[..|t|] == [s[0]] + s[1..][..|t| - 1];
      assert t == [t[0]] + t[1..];
    }
  }

  /** t occurs in s starting at index i. */
  predicate OccursAt(s: string, t: string, i: int) {
    0 <= i <= |s| - |t| && s[i..i + |t|] == t
  }

  /** `includes` agrees with its textbook definition: some slice of s equals t. */
  lemma {:induction false} IncludesIff(s: string, t: string)
    ensures Includes(s, t) <==> exists i :: OccursAt(s, t, i)
    decreases |s|
  {
    IsPrefixIff(t, s);
    if IsPrefix(t, s) {
      assert OccursAt(s, t, 0);
    }
    if s != [] {
      IncludesIff(s[1..], t);
      if Includes(s[1..], t) {
        var i :| OccursAt(s[1..], t, i);
        assert s[i + 1..i + 1 + |t|] == s[1..][i..i + |t|];
        assert OccursAt(s, t, i + 1);
      }
      if exists i :: OccursAt(s, t, i) {
        var i :| OccursAt(s, t, i);
        if i > 0 {
          assert s[1..][i - 1..i - 1 + |t|] == s[i..i + |t|];
          assert OccursAt(s[1..], t, i - 1);
        }
      }
    }
  }

  /** Every string includes the empty string. */
  lemma IncludesEmpty(s: string)
    ensures Includes(s, [])
  {
  }

  /** An occurrence found in the first part of a string is an occurrence in the whole. */
  lemma {:induction false} IncludesLeft(a: string, b: string, t: string)
    requires Includes(a, t)
    ensures Includes(a + b, t)
  {
    IncludesIff(a, t);
    var i :| OccursAt(a, t, i);
    assert (a + b)[i..i + |t|] == a[i..i + |t|];
    assert OccursAt(a + b, t, i);
    IncludesIff(a + b, t);
  }

  /** An occurrence found in the last part of a string is an occurrence in the whole. */
  lemma {:induction false} IncludesRight(a: string, b: string, t: string)
    requires Includes(b, t)
    ensures Includes(a + b, t)
  {
    IncludesIff(b, t);
    var i :| OccursAt(b, t, i);
    assert (a + b)[|a| + i..|a| + i + |t|] == b[i..i + |t|];
    assert OccursAt(a + b, t, |a| + i);
    IncludesIff(a + b, t);
  }

  lemma {:induction false} PrefixAt(t: string, s: string, k: nat)
    requires IsPrefix(t, s) && k < |t|
    ensures s[k] == t[k]
  {
    if k > 0 { PrefixAt(t[1..], s[1..], k - 1); }
  }

  lemma {:induction false} PrefixOfAppend(t: string, a: string, b: string)
    requires IsPrefix(t, a + b) && |t| <= |a|
    ensures IsPrefix(t, a)
  {
    if t != [] {
      assert (a + b)[1..] == a[1..] + b;
      PrefixOfAppend(t[1..], a[1..], b);
    }
  }

  /** Every character of an included string occurs in the including one. */
  lemma {:induction false} IncludesHasChar(s: string, t: string, j: nat)
    requires Includes(s, t) && j < |t|
    ensures t[j] in s
  {
    if IsPrefix(t, s) {
      PrefixAt(t, s, j);
    } else {
      IncludesHasChar(s[1..], t, j);
    }
  }

  /**
   * An occurrence of t in `a + [c] + b`, where the separator c does not occur
   * in t, lies wholly inside a or wholly inside b.
   */
  lemma {:induction false} IncludesAcross(a: string, c: char, b: string, t: string)
    requires c !in t && Includes(a + [c] + b, t)
    ensures Includes(a, t) || Includes(b, t)
  {
    var s := a + [c] + b;
    if IsPrefix(t, s) {
      if |t| <= |a| {
        assert s == a + ([c] + b);
        PrefixOfAppend(t, a, [c] + b);
        assert Includes(a, t);
      } else {
        PrefixAt(t, s, |a|);
        assert false;
      }
    } else if a == [] {
      assert s[1..] == b;
    } else {
      assert s[1..] == a[1..] + [c] + b;
      IncludesAcross(a[1..], c, b, t);
    }
  }

  /**
   * If some letter of the lower-case keyword k occurs in w in neither case,
   * then the lower-cased w does not include k.
   */
  lemma MissingLetter(w: string, k: string, j: nat)
    requires j < |k| && 'a' <= k[j] <= 'z' && k[j] !in w && UpperChar(k[j]) !in w
    ensures !Includes(Lower(w), k)
  {
    if Includes(Lower(w), k) {
      IncludesHasChar(Lower(w), k, j);
      LowerHasChar(w, k[j]);
    }
  }

  /**
   * A keyword without spaces is absent from the lower-cased `w + " " + rest`
   * when it is absent from both lower-cased parts.
   */
  lemma AbsentAcrossSpace(w: string, rest: string, k: string)
    requires ' ' !in k && !Includes(Lower(w), k) && !Includes(Lower(rest), k)
    ensures !Includes(Lower(w + [' '] + rest), k)
  {
    LowerAppend(w + [' '], rest);
    LowerAppend(w, [' ']);
    assert Lower([' ']) == [' '];
    if Includes(Lower(w + [' '] + rest), k) {
      IncludesAcross(Lower(w), ' ', Lower(rest), k);
    }
  }

  /** Words joined by single spaces, as a sentence is written. */
  function JoinWords(ws: seq<string>): string {
    if ws == [] then []
    else if |ws| == 1 then ws[0]
    else ws[0] + [' '] + JoinWords(ws[1..])
  }

  /** A sentence starts with the first letter of its first word. */
  lemma JoinWordsFirst(ws: seq<string>)
    requires ws != [] && ws[0] != []
    ensures JoinWords(ws) != [] && JoinWords(ws)[0] == ws[0][0]
  {
  }

  /** After the first word and its space comes the rest of the sentence. */
  lemma JoinWordsRest(ws: seq<string>)
    requires |ws| > 1
    ensures JoinWords(ws)[|ws[0]| + 1..] == JoinWords(ws[1..])
  {
    assert JoinWords(ws) == ws[0] + [' '] + JoinWords(ws[1..]);
  }

  /**
   * Two sentences differ when their first n words agree and their next words
   * start with different letters.
   */
  lemma {:induction false} WordsDifferAt(a: seq<string>, b: seq<string>, n: nat)
    requires n < |a| && n < |b| && a[..n] == b[..n]
    requires a[n] != [] && b[n] != [] && a[n][0] != b[n][0]
    ensures JoinWords(a) != JoinWords(b)
  {
    if n == 0 {
      JoinWordsFirst(a);
      JoinWordsFirst(b);
    } else {
      assert a[0] == a[..n][0] == b[..n][0] == b[0];
      assert a[1..][..n - 1] == a[..n][1..] == b[..n][1..] == b[1..][..n - 1];
      WordsDifferAt(a[1..], b[1..], n - 1);
      JoinWordsRest(a);
      JoinWordsRest(b);
    }
  }

  /**
   * A keyword without spaces is absent from a sentence when every word lacks
   * one of the keyword's letters, in both cases; `js[i]` names that letter
   * for word i.
   */
  lemma {:induction false} AbsentFromWords(ws: seq<string>, k: string, js: seq<nat>)
    requires k != [] && ' ' !in k && |js| == |ws|
    requires forall i :: 0 <= i < |ws| ==>
      js[i] < |k| && 'a' <= k[js[i]] <= 'z' && k[js[i]] !in ws[i] && UpperChar(k[js[i]]) !in ws[i]
    ensures !Includes(Lower(JoinWords(ws)), k)
  {
    if ws == [] {
      assert Lower([]) == [];
    } else {
      MissingLetter(ws[0], k, js[0]);
      if |ws| > 1 {
        assert forall i :: 0 <= i < |ws| - 1 ==> ws[1..][i] == ws[i + 1] && js[1..][i] == js[i + 1];
        AbsentFromWords(ws[1..], k, js[1..]);
        AbsentAcrossSpace(ws[0], JoinWords(ws[1..]), k);
      }
    }
  }

  /** A sentence includes whatever one of its lower-cased words includes. */
  lemma {:induction false} PresentInWords(ws: seq<string>, i: nat, k: string)
    requires i < |ws| && Includes(Lower(ws[i]), k)
    ensures Includes(Lower(JoinWords(ws)), k)
  {
    if |ws| > 1 {
      LowerAppend(ws[0] + [' '], JoinWords(ws[1..]));
      LowerAppend(ws[0], [' ']);
      if i == 0 {
        IncludesLeft(Lower(ws[0]), Lower([' ']), k);
        IncludesLeft(Lower(ws[0]) + Lower([' ']), Lower(JoinWords(ws[1..])), k);
      } else {
        assert ws[1..][i - 1] == ws[i];
        PresentInWords(ws[1..], i - 1, k);
        IncludesRight(Lower(ws[0]) + Lower([' ']), Lower(JoinWords(ws[1..])), k);
      }
    }
  }

  /** The lower-cased `a + w + b` includes k when the lower-cased w is k. */
  lemma PresentInside(s: string, a: string, w: string, b: string, k: string)
    requires s == a + w + b && Lower(w) == k
    ensures Includes(Lower(s), k)
  {
    LowerAppend(a + w, b);
    LowerAppend(a, w);
    assert Includes(k, k) by { assert IsPrefix(k, k) by { IsPrefixIff(k, k); } }
    IncludesRight(Lower(a), Lower(w), k);
    IncludesLeft(Lower(a) + Lower(w), Lower(b), k);
  }

  // ---------------------------------------------------------------------------
  // trim

  /** `trim()` leaves nothing exactly when every character is white space. */
  lemma BlankIff(s: string)
    ensures IsBlank(s) <==> forall i :: 0 <= i < |s| ==> IsJsSpace(s[i])
  {
    var u := TrimStart(s);
    assert TrimEnd(u) == [] <==> u == [];
  }

  /** What `trim()` keeps is a contiguous slice of s that starts and ends with non-space. */
  lemma TrimIsInfix(s: string)
    ensures exists i, j :: 0 <= i <= j <= |s| && Trim(s) == s[i..j]
    ensures Trim(s) != [] ==> !IsJsSpace(Trim(s)[0]) && !IsJsSpace(Trim(s)[|Trim(s)| - 1])
  {
    var u := TrimStart(s);
    var r := TrimEnd(u);
    var i := |s| - |u|;
    assert u == s[i..];
    assert r == u[..|r|];
    assert u[..|r|] == s[i..i + |r|];
    assert Trim(s) == s[i..i + |r|];
    if r != [] {
      assert r[0] == u[0];
    }
  }
}

/**
 * The normaliser and the matcher: a name matches a pattern when the name,
 * lower-cased and stripped down to letters, digits and white space,
 * contains the pattern treated the same way.
 */
module Matching {

  /** Letters, as this model recognises them: the ASCII letters. */
  predicate IsLetter(c: char) { 'a' <= c <= 'z' || 'A' <= c <= 'Z' }

  /** Decimal digits, as this model recognises them: the ASCII digits. */
  predicate IsDigit(c: char) { '0' <= c <= '9' }

  /** White space: exactly the characters with Unicode's White_Space property. */
  predicate IsSpace(c: char)
  {
    c == ' ' || '\t' <= c <= '\r' || c == '\U{85}' || c == '\U{A0}' || c == '\U{1680}'
    || '\U{2000}' <= c <= '\U{200A}' || c == '\U{2028}' || c == '\U{2029}'
    || c == '\U{202F}' || c == '\U{205F}' || c == '\U{3000}'
  }

  /** The characters that survive cleaning. */
  predicate Kept(c: char) { IsLetter(c) || IsDigit(c) || IsSpace(c) }

  /** Lower-cases one character; only ASCII upper-case letters change. */
  function LowerChar(c: char): (d: char)
    ensures Kept(d) == Kept(c)
    ensures IsLetter(c) ==> 'a' <= d <= 'z'
    ensures !IsLetter(c) ==> d == c
    ensures 'a' <= c <= 'z' ==> d == c
    ensures 'A' <= c <= 'Z' ==> d as int - 'a' as int == c as int - 'A' as int
  {
    if 'A' <= c <= 'Z' then (c as int - 'A' as int + 'a' as int) as char else c
  }

  /** Lower-cases a string character by character. */
  function Lower(s: string): (r: string)
    ensures |r| == |s|
    ensures forall i :: 0 <= i < |s| ==> Kept(r[i]) == Kept(s[i])
    ensures forall i :: 0 <= i < |s| ==> !('A' <= r[i] <= 'Z')
    ensures forall i :: 0 <= i < |s| && !('A' <= s[i] <= 'Z') ==> r[i] == s[i]
    ensures forall i :: 0 <= i < |s| && 'A' <= s[i] <= 'Z' ==> r[i] as int - 'a' as int == s[i] as int - 'A' as int
  {
    seq(|s|, i requires 0 <= i < |s| => LowerChar(s[i]))
  }

  /**
   * Specification of cleaning: the kept characters of `s`, in order.
   * Defined from the end of the string, the way a loop builds it.
   */
  function Cleaned(s: string): (r: string)
    ensures forall i :: 0 <= i < |r| ==> Kept(r[i])
    ensures |r| <= |s|
  {
    if s == [] then []
    else Cleaned(s[..|s| - 1]) + (if Kept(s[|s| - 1]) then [s[|s| - 1]] else [])
  }

  /** Cleaning as the program does it: append each kept character to a buffer. */
  method Clean(s: string) returns (r: string)
    ensures r == Cleaned(s)
  {
    r := [];
    for i := 0 to |s|
      invariant r == Cleaned(s[..i])
    {
      assert s[..i + 1][..i] == s[..i];
      if Kept(s[i]) {
        r := r + [s[i]];
      }
    }
    assert s[..|s|] == s;
  }

  /** `p` occurs in `s` starting at index `i`. */
  predicate OccursAt(s: string, p: string, i: nat)
  {
    i + |p| <= |s| && s[i..i + |p|] == p
  }

  /** `p` is a contiguous substring of `s`; the empty string is in every string. */
  predicate Contains(s: string, p: string)
  {
    exists i :: 0 <= i <= |s| - |p| && OccursAt(s, p, i)
  }

  /** Whether the name `name` fits the pattern `pattern`. */
  predicate Match(pattern: string, name: string)
    ensures Match(pattern, name) ==> |Cleaned(Lower(pattern))| <= |Cleaned(Lower(name))|
    ensures Cleaned(Lower(pattern)) == [] ==> Match(pattern, name)
  {
    assert OccursAt(Cleaned(Lower(name)), [], 0);
    Contains(Cleaned(Lower(name)), Cleaned(Lower(pattern)))
  }

  /** `a` can be obtained from `b` by deleting characters. */
  predicate IsSubsequence(a: string, b: string)
    decreases |b|
  {
    a == [] ||
    (b != [] &&
     (IsSubsequence(a, b[..|b| - 1]) ||
      (a[|a| - 1] == b[|b| - 1] && IsSubsequence(a[..|a| - 1], b[..|b| - 1]))))
  }

  // ---------------------------------------------------------------------
  // Properties of cleaning

  /** Cleaning distributes over concatenation. */
  lemma {:induction false} CleanedAppend(a: string, b: string)
    ensures Cleaned(a + b) == Cleaned(a) + Cleaned(b)
    decreases |b|
  {
    if b == [] {
      assert a + b == a;
    } else {
      var b' := b[..|b| - 1];
      assert (a + b)[..|a + b| - 1] == a + b';
      CleanedAppend(a, b');
    }
  }

  /** Cleaning counts every kept character as often as it occurs, and no other. */
  lemma {:induction false} CleanedCount(s: string, c: char)
    ensures multiset(Cleaned(s))[c] == if Kept(c) then multiset(s)[c] else 0
    decreases |s|
  {
    if s != [] {
      var init := s[..|s| - 1];
      assert s == init + [s[|s| - 1]];
      CleanedCount(init, c);
    }
  }

  /** The cleaned string is a subsequence of the input: order is kept. */
  lemma {:induction false} CleanedSubsequence(s: string)
    ensures IsSubsequence(Cleaned(s), s)
    decreases |s|
  {
    if s != [] {
      var init := s[..|s| - 1];
      CleanedSubsequence(init);
      var r := Cleaned(s);
      if Kept(s[|s| - 1]) {
        assert r[..|r| - 1] == Cleaned(init);
      } else {
        assert r == Cleaned(init);
      }
    }
  }

  /** A string made only of kept characters is unchanged by cleaning. */
  lemma {:induction false} CleanedKeepsKept(s: string)
    requires forall i :: 0 <= i < |s| ==> Kept(s[i])
    ensures Cleaned(s) == s
    decreases |s|
  {
    if s != [] {
      CleanedKeepsKept(s[..|s| - 1]);
    }
  }

  /** A string with no kept character cleans to the empty string. */
  lemma {:induction false} CleanedDropsAll(s: string)
    requires forall i :: 0 <= i < |s| ==> !Kept(s[i])
    ensures Cleaned(s) == []
    decreases |s|
  {
    if s != [] {
      CleanedDropsAll(s[..|s| - 1]);
    }
  }

  lemma CleanedIdempotent(s: string)
    ensures Cleaned(Cleaned(s)) == Cleaned(s)
  {
    CleanedKeepsKept(Cleaned(s));
  }

  /** Lower-casing before or after cleaning gives the same string. */
  lemma {:induction false} CleanedLowerCommute(s: string)
    ensures Cleaned(Lower(s)) == Lower(Cleaned(s))
    decreases |s|
  {
    if s != [] {
      var init := s[..|s| - 1];
      assert Lower(s) == Lower(init) + [LowerChar(s[|s| - 1])];
      assert Lower(s)[..|s| - 1] == Lower(init);
      CleanedLowerCommute(init);
      LowerAppend(Cleaned(init), if Kept(s[|s| - 1]) then [s[|s| - 1]] else []);
    }
  }

  lemma LowerAppend(a: string, b: string)
    ensures Lower(a + b) == Lower(a) + Lower(b)
  {
    assert forall i :: 0 <= i < |a + b| ==> Lower(a + b)[i] == (Lower(a) + Lower(b))[i];
  }

  lemma LowerIdempotent(s: string)
    ensures Lower(Lower(s)) == Lower(s)
  {
    assert forall i :: 0 <= i < |s| ==> Lower(Lower(s))[i] == Lower(s)[i];
  }

  /** The examples the program's own tests give for cleaning: plain names are kept, */
  lemma CleanedKeepsPlainName()
    ensures Cleaned("Bob Dylan") == "Bob Dylan"
  {
    CleanedKeepsKept("Bob Dylan");
  }

  /** an ampersand is dropped and the spaces around it kept, */
  lemma CleanedDropsAmpersand()
    ensures Cleaned("Bob Dylan & The Band") == "Bob Dylan  The Band"
  {
    CleanedDropsOne("Bob Dylan ", '&', " The Band");
    assert "Bob Dylan " + ['&'] + " The Band" == "Bob Dylan & The Band";
    assert "Bob Dylan " + " The Band" == "Bob Dylan  The Band";
    CleanedKeepsKept("Bob Dylan  The Band");
  }

  /** and a slash is dropped. */
  lemma CleanedDropsSlash()
    ensures Cleaned("AC/DC") == "ACDC"
  {
    CleanedDropsOne("AC", '/', "DC");
    assert "AC" + ['/'] + "DC" == "AC/DC";
    assert "AC" + "DC" == "ACDC";
    CleanedKeepsKept("ACDC");
  }

  /** Deleting one character that cleaning drops does not change the cleaned string. */
  lemma CleanedDropsOne(a: string, c: char, b: string)
    requires !Kept(c)
    ensures Cleaned(a + [c] + b) == Cleaned(a + b)
  {
    CleanedAppend(a + [c], b);
    CleanedAppend(a, [c]);
    CleanedAppend(a, b);
    CleanedDropsAll([c]);
  }

  // ---------------------------------------------------------------------
  // Properties of matching

  lemma OccursAtTransitive(a: string, b: string, c: string, i: nat, j: nat)
    requires OccursAt(b, a, i) && OccursAt(c, b, j)
    ensures OccursAt(c, a, j + i)
  {
    forall k | 0 <= k < |a|
      ensures c[j + i..j + i + |a|][k] == a[k]
    {
      assert c[j + i + k] == c[j..j + |b|][i + k] == b[i + k];
    }
  }

  lemma ContainsTransitive(a: string, b: string, c: string)
    requires Contains(b, a) && Contains(c, b)
    ensures Contains(c, a)
  {
    var i :| 0 <= i <= |b| - |a| && OccursAt(b, a, i);
    var j :| 0 <= j <= |c| - |b| && OccursAt(c, b, j);
    OccursAtTransitive(a, b, c, i, j);
  }

  /** A pattern with no letter, digit or space in it (the empty one too) fits every name. */
  lemma MatchEmptyPattern(pattern: string, name: string)
    requires forall i :: 0 <= i < |pattern| ==> !Kept(pattern[i])
    ensures Match(pattern, name)
  {
    CleanedDropsAll(Lower(pattern));
    assert OccursAt(Cleaned(Lower(name)), Cleaned(Lower(pattern)), 0);
  }

  /** Every name fits itself as a pattern. */
  lemma MatchSelf(name: string)
    ensures Match(name, name)
  {
    var c := Cleaned(Lower(name));
    assert c[0..|c|] == c;
    assert OccursAt(c, c, 0);
  }

  /** Matching is transitive: a pattern that fits a name fits every name that name fits. */
  lemma MatchTransitive(p: string, q: string, s: string)
    requires Match(p, q) && Match(q, s)
    ensures Match(p, s)
  {
    ContainsTransitive(Cleaned(Lower(p)), Cleaned(Lower(q)), Cleaned(Lower(s)));
  }

  /** Matching ignores case in the pattern and in the name. */
  lemma MatchIgnoresCase(pattern: string, name: string)
    ensures Match(Lower(pattern), name) == Match(pattern, name)
    ensures Match(pattern, Lower(name)) == Match(pattern, name)
  {
    LowerIdempotent(pattern);
    LowerIdempotent(name);
  }

  lemma CleanedLowerDrops(a: string, c: char, b: string)
    requires !Kept(c)
    ensures Cleaned(Lower(a + [c] + b)) == Cleaned(Lower(a + b))
  {
    LowerAppend(a + [c], b);
    LowerAppend(a, [c]);
    LowerAppend(a, b);
    assert Lower([c]) == [LowerChar(c)];
    CleanedDropsOne(Lower(a), LowerChar(c), Lower(b));
  }

  /** Matching ignores punctuation: deleting a character that cleaning drops changes nothing. */
  lemma MatchIgnoresPunctuation(pattern: string, a: string, c: char, b: string)
    requires !Kept(c)
    ensures Match(pattern, a + [c] + b) == Match(pattern, a + b)
    ensures Match(a + [c] + b, pattern) == Match(a + b, pattern)
  {
    CleanedLowerDrops(a, c, b);
  }

  /** A name that fits still fits when more text is added before or after it. */
  lemma MatchExtends(pattern: string, name: string, more: string)
    requires Match(pattern, name)
    ensures Match(pattern, name + more) && Match(pattern, more + name)
  {
    LowerAppend(name, more);
    LowerAppend(more, name);
    CleanedAppend(Lower(name), Lower(more));
    CleanedAppend(Lower(more), Lower(name));
    ContainsExtends(Cleaned(Lower(name)), Cleaned(Lower(more)), Cleaned(Lower(pattern)));
  }

  lemma ContainsExtends(n: string, m: string, p: string)
    requires Contains(n, p)
    ensures Contains(n + m, p) && Contains(m + n, p)
  {
    var i :| 0 <= i <= |n| - |p| && OccursAt(n, p, i);
    assert OccursAt(n + m, n, 0) by { assert (n + m)[0..|n|] == n; }
    assert OccursAt(m + n, n, |m|) by { assert (m + n)[|m|..|m| + |n|] == n; }
    OccursAtTransitive(p, n, n + m, i, 0);
    OccursAtTransitive(p, n, m + n, i, |m|);
  }

  /** The cases the program's own tests check, all of which `match` accepts. */
  lemma MatchExamples()
    ensures Match("The Who", "The Who")
    ensures Match("acdc", "AC/DC")
    ensures Match("bob dylan", "Bob Dylan")
    ensures Match("bob dylan", "Bob Dylan & The Band")
    ensures Match("the band", "Bob Dylan & The Band")
  {
    MatchSelf("The Who");
    MatchAcdc();
    MatchBobDylan();
    MatchExtends("bob dylan", "Bob Dylan", " & The Band");
    assert "Bob Dylan" + " & The Band" == "Bob Dylan & The Band";
    MatchTheBand();
    MatchExtends("the band", "The Band", "Bob Dylan & ");
    assert "Bob Dylan & " + "The Band" == "Bob Dylan & The Band";
  }

  lemma MatchAcdc()
    ensures Match("acdc", "AC/DC")
  {
    CleanedLowerDrops("AC", '/', "DC");
    assert "AC" + ['/'] + "DC" == "AC/DC";
    assert "AC" + "DC" == "ACDC";
    LowerMatches("acdc", "ACDC");
  }

  lemma MatchBobDylan()
    ensures Match("bob dylan", "Bob Dylan")
  {
    LowerMatches("bob dylan", "Bob Dylan");
  }

  lemma MatchTheBand()
    ensures Match("the band", "The Band")
  {
    LowerMatches("the band", "The Band");
  }

  /** A name fits its own lower-cased spelling. */
  lemma LowerMatches(pattern: string, name: string)
    requires pattern == Lower(name)
    ensures Match(pattern, name)
  {
    LowerIdempotent(name);
    MatchSelf(name);
  }
}

/**
 * Text primitives shared by the search and filter code: case folding, substring
 * tests, the whitespace tests behind `trim()`/`isBlank()`, and SQLite's LIKE.
 *
 * Case folding is ASCII-only. That is exactly SQLite's LIKE; for JavaScript's
 * `toLowerCase` and Kotlin's `ignoreCase` it is an approximation that agrees on
 * every searched field of the seed catalogs.
 */
module Text {

  /** Lower-cases an ASCII letter and leaves every other character alone. */
  function LowerChar(c: char): char
  {
    if 'A' <= c <= 'Z' then (c as int + 32) as char else c
  }

  function Lower(s: string): string
  {
    seq(|s|, i requires 0 <= i < |s| => LowerChar(s[i]))
  }

  /** Lower-casing twice is lower-casing once. */
  lemma LowerIdempotent(s: string)
    ensures Lower(Lower(s)) == Lower(s)
  {
  }

  /** Lower-casing commutes with taking a slice. */
  lemma LowerSlice(s: string, i: nat, j: nat)
    requires i <= j <= |s|
    ensures Lower(s)[i..j] == Lower(s[i..j]) == Lower(s[i..][..j - i])
  {
    assert s[i..j] == s[i..][..j - i];
  }

  /** `q` occurs in `s` starting at index `i`. */
  predicate OccursAt(s: string, q: string, i: nat)
  {
    i + |q| <= |s| && s[i..i + |q|] == q
  }

  /** `s.includes(q)` in TypeScript, `s.contains(q)` in Kotlin. */
  predicate Contains(s: string, q: string)
  {
    exists i: nat | i <= |s| :: OccursAt(s, q, i)
  }

  /** Substring test after folding both sides to lower case. */
  predicate ContainsIgnoringCase(s: string, q: string)
  {
    Contains(Lower(s), Lower(q))
  }

  /** Every string contains the empty string. */
  lemma ContainsEmpty(s: string)
    ensures Contains(s, [])
  {
    assert OccursAt(s, [], 0);
  }

  /** A query occurs in `s` ignoring case exactly when its lower-cased form does. */
  lemma ContainsIgnoringCaseOfLower(s: string, q: string)
    ensures ContainsIgnoringCase(s, Lower(q)) == ContainsIgnoringCase(s, q)
  {
    LowerIdempotent(q);
  }

  // ---------------------------------------------------------------------------
  // Whitespace

  /** Unicode space separators (general category Zs). */
  predicate IsSpaceSeparator(c: char)
  {
    var n := c as int;
    n == 0x20 || n == 0xA0 || n == 0x1680 || 0x2000 <= n <= 0x200A
    || n == 0x202F || n == 0x205F || n == 0x3000
  }

  /** ECMAScript WhiteSpace and LineTerminator: what `String.prototype.trim` removes. */
  predicate IsJsWhitespace(c: char)
  {
    var n := c as int;
    0x09 <= n <= 0x0D || n == 0x2028 || n == 0x2029 || n == 0xFEFF || IsSpaceSeparator(c)
  }

  /** Kotlin's `Char.isWhitespace()`: Java's `isWhitespace` or `isSpaceChar`. */
  predicate IsKotlinWhitespace(c: char)
  {
    var n := c as int;
    0x09 <= n <= 0x0D || 0x1C <= n <= 0x1F || n == 0x2028 || n == 0x2029 || IsSpaceSeparator(c)
  }

  /** Kotlin's `String.isBlank()`. */
  predicate IsBlank(s: string)
  {
    forall i | 0 <= i < |s| :: IsKotlinWhitespace(s[i])
  }

  predicate AllJsWhitespace(s: string)
  {
    forall i | 0 <= i < |s| :: IsJsWhitespace(s[i])
  }

  function TrimStart(s: string): string
  {
    if s != [] && IsJsWhitespace(s[0]) then TrimStart(s[1..]) else s
  }

  function TrimEnd(s: string): string
  {
    if s != [] && IsJsWhitespace(s[|s| - 1]) then TrimEnd(s[..|s| - 1]) else s
  }

  /** TypeScript's `s.trim()`. */
  function Trim(s: string): string
  {
    TrimEnd(TrimStart(s))
  }

  lemma {:induction false} TrimStartEmpty(s: string)
    ensures TrimStart(s) == [] <==> AllJsWhitespace(s)
  {
    if s != [] && IsJsWhitespace(s[0]) {
      TrimStartEmpty(s[1..]);
      assert AllJsWhitespace(s) <==> AllJsWhitespace(s[1..]) by {
        if AllJsWhitespace(s[1..]) {
          forall i | 0 <= i < |s| ensures IsJsWhitespace(s[i]) {
            if i > 0 { assert s[i] == s[1..][i - 1]; }
          }
        }
      }
    }
  }

  lemma {:induction false} TrimEndEmpty(s: string)
    ensures TrimEnd(s) == [] <==> AllJsWhitespace(s)
  {
    if s != [] && IsJsWhitespace(s[|s| - 1]) {
      var init := s[..|s| - 1];
      TrimEndEmpty(init);
      assert AllJsWhitespace(s) <==> AllJsWhitespace(init) by {
        if AllJsWhitespace(init) {
          forall i | 0 <= i < |s| ensures IsJsWhitespace(s[i]) {
            if i < |s| - 1 { assert s[i] == init[i]; }
          }
        }
      }
    }
  }

  /** `s.trim().length === 0` holds exactly when every character of `s` is whitespace. */
  lemma TrimEmptyIffAllWhitespace(s: string)
    ensures Trim(s) == [] <==> AllJsWhitespace(s)
  {
    TrimStartEmpty(s);
    TrimEndEmpty(TrimStart(s));
    var t := TrimStart(s);
    if AllJsWhitespace(t) && t != [] {
      TrimStartFirst(s);
    }
  }

  lemma {:induction false} TrimStartFirst(s: string)
    ensures TrimStart(s) != [] ==> !IsJsWhitespace(TrimStart(s)[0])
  {
    if s != [] && IsJsWhitespace(s[0]) {
      TrimStartFirst(s[1..]);
    }
  }

  // ---------------------------------------------------------------------------
  // SQLite LIKE

  /**
   * SQLite's `s LIKE pattern` without an ESCAPE clause: '%' matches any run of
   * characters, '_' any single character, and every other pattern character
   * matches itself up to ASCII case.
   */
  predicate Like(s: string, pattern: string)
    decreases |pattern|, |s|
  {
    if pattern == [] then s == []
    else if pattern[0] == '%' then Like(s, pattern[1..]) || (s != [] && Like(s[1..], pattern))
    else
      s != [] && (pattern[0] == '_' || LowerChar(s[0]) == LowerChar(pattern[0]))
      && Like(s[1..], pattern[1..])
  }

  /** The pattern `'%' || q || '%'` the queries build around a search term. */
  function Surround(q: string): string
  {
    "%" + q + "%"
  }

  predicate HasNoWildcards(q: string)
  {
    '%' !in q && '_' !in q
  }

  lemma {:induction false} LikeAnything(s: string)
    ensures Like(s, "%")
  {
    if s != [] {
      LikeAnything(s[1..]);
    }
  }

  /** `s LIKE q || '%'`, for a wildcard-free `q`, is a case-insensitive prefix test. */
  lemma {:induction false} LikePrefix(s: string, q: string)
    requires HasNoWildcards(q)
    ensures Like(s, q + "%") <==> |q| <= |s| && Lower(s[..|q|]) == Lower(q)
  {
    if q == [] {
      LikeAnything(s);
      assert q + "%" == "%";
    } else {
      var p := q + "%";
      assert p[0] == q[0] && p[1..] == q[1..] + "%";
      assert HasNoWildcards(q[1..]) by {
        assert forall c :: c in q[1..] ==> c in q;
      }
      if s != [] {
        LikePrefix(s[1..], q[1..]);
        if |q| <= |s| {
          var a, b := Lower(s[..|q|]), Lower(q);
          assert Lower(s[1..][..|q| - 1]) == a[1..];
          assert Lower(q[1..]) == b[1..];
          assert a == b <==> a[0] == b[0] && a[1..] == b[1..] by {
            if a[0] == b[0] && a[1..] == b[1..] {
              assert a == [a[0]] + a[1..] && b == [b[0]] + b[1..];
            }
          }
        }
      }
    }
  }

  /** A leading '%' tries every suffix of the subject. */
  lemma {:induction false} LikeLeadingPercent(s: string, p: string)
    ensures Like(s, "%" + p) <==> exists i :: 0 <= i <= |s| && Like(s[i..], p)
  {
    var pp := "%" + p;
    assert pp[0] == '%' && pp[1..] == p;
    if s == [] {
      assert s[0..] == s;
    } else {
      LikeLeadingPercent(s[1..], p);
      if exists i :: 0 <= i <= |s| && Like(s[i..], p) {
        var i :| 0 <= i <= |s| && Like(s[i..], p);
        if i > 0 {
          assert s[1..][i - 1..] == s[i..];
        } else {
          assert s[0..] == s;
        }
      }
      if Like(s[1..], pp) {
        var i :| 0 <= i <= |s[1..]| && Like(s[1..][i..], p);
        assert s[1..][i..] == s[i + 1..];
      }
      if Like(s, p) {
        assert s[0..] == s;
      }
    }
  }

  /**
   * For a query without wildcards, `field LIKE '%' || q || '%'` holds exactly
   * when the field contains the query ignoring ASCII case.
   */
  lemma LikeSurroundIsContains(s: string, q: string)
    requires HasNoWildcards(q)
    ensures Like(s, Surround(q)) <==> ContainsIgnoringCase(s, q)
  {
    assert Surround(q) == "%" + (q + "%");
    LikeLeadingPercent(s, q + "%");
    if Like(s, Surround(q)) {
      var i :| 0 <= i <= |s| && Like(s[i..], q + "%");
      LikePrefix(s[i..], q);
      LowerSlice(s, i, i + |q|);
      assert OccursAt(Lower(s), Lower(q), i);
    }
    if ContainsIgnoringCase(s, q) {
      var i: nat :| i <= |Lower(s)| && OccursAt(Lower(s), Lower(q), i);
      assert i + |q| <= |s|;
      LikePrefix(s[i..], q);
      LowerSlice(s, i, i + |q|);
      assert Like(s[i..], q + "%");
    }
  }
}

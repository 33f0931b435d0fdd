/**
 * The string operations the backend leaves to SQLite and the browser:
 * ASCII lower-casing (SQLite's lower()), the LIKE pattern match used by the
 * catalog search, the BINARY collation used to order names, and the
 * JavaScript notion of a blank string.
 */
module Text {

  /** SQLite's lower(): only the ASCII letters A-Z change. */
  function Lower(c: char): (r: char)
    ensures 'A' <= c <= 'Z' ==> r == c - 'A' + 'a'
    ensures !('A' <= c <= 'Z') ==> r == c
  {
    if 'A' <= c <= 'Z' then c - 'A' + 'a' else c
  }

  function LowerStr(s: string): (r: string)
    ensures |r| == |s|
    ensures forall i :: 0 <= i < |s| ==> r[i] == Lower(s[i])
  {
    if s == [] then [] else [Lower(s[0])] + LowerStr(s[1..])
  }

  /** Two characters LIKE treats as equal: equal up to ASCII case. */
  predicate FoldEq(a: char, b: char) {
    Lower(a) == Lower(b)
  }

  // ---------------------------------------------------------------------
  // SQL LIKE

  /**
   * SQLite's `s LIKE p` without an ESCAPE clause: `%` matches any run of
   * characters, `_` any one character, everything else itself up to ASCII
   * case.
   */
  predicate Like(s: string, p: string)
    decreases |s| + |p|
  {
    if p == [] then s == []
    else if p[0] == '%' then Like(s, p[1..]) || (s != [] && Like(s[1..], p))
    else s != [] && (p[0] == '_' || FoldEq(s[0], p[0])) && Like(s[1..], p[1..])
  }

  /** The text holds neither LIKE wildcard. */
  predicate NoWildcards(q: string) {
    forall j :: 0 <= j < |q| ==> q[j] != '%' && q[j] != '_'
  }

  /** q occurs in s at position i, up to ASCII case. */
  predicate OccursAt(s: string, q: string, i: nat) {
    i + |q| <= |s| && forall j :: 0 <= j < |q| ==> FoldEq(s[i + j], q[j])
  }

  /** q occurs somewhere in s, up to ASCII case. */
  ghost predicate ContainsFold(s: string, q: string) {
    exists i: nat :: OccursAt(s, q, i)
  }

  lemma {:induction false} LikeAnything(s: string)
    ensures Like(s, "%")
    decreases |s|
  {
    assert "%"[1..] == [];
    if s != [] {
      LikeAnything(s[1..]);
    }
  }

  /** A literal followed by `%` matches exactly the strings it begins. */
  lemma {:induction false} LikeLiteralPrefix(t: string, q: string)
    requires NoWildcards(q)
    ensures Like(t, q + "%") <==> OccursAt(t, q, 0)
    decreases |q|
  {
    if q == [] {
      assert q + "%" == "%";
      LikeAnything(t);
    } else {
      var p := q + "%";
      assert p[0] == q[0] && p[1..] == q[1..] + "%";
      if t != [] {
        LikeLiteralPrefix(t[1..], q[1..]);
        if OccursAt(t[1..], q[1..], 0) && FoldEq(t[0], q[0]) {
          forall j | 0 <= j < |q| ensures FoldEq(t[j], q[j]) {
            if j > 0 { assert t[j] == t[1..][j - 1]; }
          }
        }
        if OccursAt(t, q, 0) {
          forall j | 0 <= j < |q| - 1 ensures FoldEq(t[1..][j], q[1..][j]) {
            assert t[1..][j] == t[j + 1];
          }
        }
      }
    }
  }

  /** A leading `%` lets the rest of the pattern start at any position. */
  lemma {:induction false} LikeAnyStart(s: string, r: string)
    ensures Like(s, "%" + r) <==> exists i: nat :: i <= |s| && Like(s[i..], r)
    decreases |s|
  {
    var p := "%" + r;
    assert p[0] == '%' && p[1..] == r;
    assert s[0..] == s;
    if s != [] {
      LikeAnyStart(s[1..], r);
      if exists i: nat :: i <= |s| && Like(s[i..], r) {
        var i: nat :| i <= |s| && Like(s[i..], r);
        if i > 0 {
          assert s[1..][i - 1..] == s[i..];
        }
      }
      if exists i: nat :: i <= |s| - 1 && Like(s[1..][i..], r) {
        var i: nat :| i <= |s| - 1 && Like(s[1..][i..], r);
        assert s[1..][i..] == s[i + 1..];
      }
    }
  }

  /**
   * Without wildcards in the search text, `s LIKE '%q%'` holds exactly when
   * q occurs in s up to ASCII case.
   */
  lemma LikeIsContains(s: string, q: string)
    requires NoWildcards(q)
    ensures Like(s, "%" + q + "%") <==> ContainsFold(s, q)
  {
    assert "%" + q + "%" == "%" + (q + "%");
    LikeAnyStart(s, q + "%");
    if ContainsFold(s, q) {
      var i: nat :| OccursAt(s, q, i);
      LikeLiteralPrefix(s[i..], q);
      assert OccursAt(s[i..], q, 0);
    }
    if exists i: nat :: i <= |s| && Like(s[i..], q + "%") {
      var i: nat :| i <= |s| && Like(s[i..], q + "%");
      LikeLiteralPrefix(s[i..], q);
      assert OccursAt(s, q, i);
    }
  }

  /**
   * The search text is not escaped, so `_` in it matches any character:
   * searching "a_c" finds a name "abc" that does not contain "a_c".
   */
  lemma UnderscoreMatchesAnyChar()
    ensures Like("abc", "%a_c%")
    ensures !ContainsFold("abc", "a_c")
  {
    assert "%a_c%"[1..] == "a_c%";
    assert "abc"[1..] == "bc" && "bc"[1..] == "c" && "c"[1..] == [];
    assert "a_c%"[1..] == "_c%" && "_c%"[1..] == "c%" && "c%"[1..] == "%";
    LikeAnything([]);
    forall i: nat ensures !OccursAt("abc", "a_c", i) {
      if i == 0 {
        assert !FoldEq("abc"[1], "a_c"[1]);
      }
    }
  }

  // ---------------------------------------------------------------------
  // BINARY collation: code-point lexicographic order

  /** a sorts before or equal to b under SQLite's BINARY collation. */
  predicate LexLe(a: string, b: string) {
    a == [] || (b != [] && (a[0] < b[0] || (a[0] == b[0] && LexLe(a[1..], b[1..]))))
  }

  lemma {:induction false} LexLeTotal(a: string, b: string)
    ensures LexLe(a, b) || LexLe(b, a)
  {
    if a != [] && b != [] && a[0] == b[0] {
      LexLeTotal(a[1..], b[1..]);
    }
  }

  lemma {:induction false} LexLeTrans(a: string, b: string, c: string)
    requires LexLe(a, b) && LexLe(b, c)
    ensures LexLe(a, c)
  {
    if a != [] && b != [] && c != [] && a[0] == b[0] == c[0] {
      LexLeTrans(a[1..], b[1..], c[1..]);
    }
  }

  // ---------------------------------------------------------------------
  // JavaScript whitespace

  /** A character String.prototype.trim removes (WhiteSpace or LineTerminator). */
  predicate JsSpace(c: char) {
    c == ' ' || c == '\t' || c == '\n' || c == '\r' || c == '\U{000B}' || c == '\U{000C}'
    || c == '\U{00A0}' || c == '\U{FEFF}' || c == '\U{1680}' || ('\U{2000}' <= c <= '\U{200A}')
    || c == '\U{2028}' || c == '\U{2029}' || c == '\U{202F}' || c == '\U{205F}' || c == '\U{3000}'
  }

  function TrimStart(s: string): (r: string)
    ensures |r| <= |s| && r == s[|s| - |r|..]
    ensures r != [] ==> !JsSpace(r[0])
    ensures forall i :: 0 <= i < |s| - |r| ==> JsSpace(s[i])
  {
    if s != [] && JsSpace(s[0]) then TrimStart(s[1..]) else s
  }

  function TrimEnd(s: string): (r: string)
    ensures |r| <= |s| && r == s[..|r|]
    ensures r != [] ==> !JsSpace(r[|r| - 1])
    ensures forall i :: |r| <= i < |s| ==> JsSpace(s[i])
  {
    if s != [] && JsSpace(s[|s| - 1]) then TrimEnd(s[..|s| - 1]) else s
  }

  /** `s.trim()`. */
  function Trim(s: string): (r: string)
    ensures r == [] <==> forall i :: 0 <= i < |s| ==> JsSpace(s[i])
    ensures r != [] ==> !JsSpace(r[0]) && !JsSpace(r[|r| - 1])
    ensures exists a: nat, b: nat :: a <= b <= |s| && r == s[a..b] && DroppedEnds(s, a, b)
  {
    var t := TrimStart(s);
    var r := TrimEnd(t);
    assert t != [] ==> r != [];
    var a := |s| - |t|;
    assert r == s[a..a + |r|];
    assert DroppedEnds(s, a, a + |r|);
    r
  }

  /** Everything of `s` outside `s[lo..hi]` is JavaScript white space. */
  predicate DroppedEnds(s: string, lo: nat, hi: nat)
    requires lo <= hi <= |s|
  {
    (forall i :: 0 <= i < lo ==> JsSpace(s[i])) && (forall i :: hi <= i < |s| ==> JsSpace(s[i]))
  }
}

/** SQL `LIKE` as the task search queries use it: '%' matches any run of
    characters, '_' any single character, every other character itself; no
    escape character is declared. */
module SqlLike {
  import opened Text

  predicate Like(pattern: string, s: string)
    decreases |pattern| + |s|
  {
    if pattern == [] then s == []
    else if pattern[0] == '%' then Like(pattern[1..], s) || (s != [] && Like(pattern, s[1..]))
    else s != [] && (pattern[0] == '_' || pattern[0] == s[0]) && Like(pattern[1..], s[1..])
  }

  predicate NoWildcards(w: string) {
    '%' !in w && '_' !in w
  }

  lemma {:induction false} PercentMatchesAll(s: string)
    ensures Like("%", s)
  {
    if s != [] {
      PercentMatchesAll(s[1..]);
    }
  }

  /** Without wildcards, `w%` matches exactly the strings that start with `w`. */
  lemma {:induction false} LiteralThenPercent(w: string, s: string)
    requires NoWildcards(w)
    ensures Like(w + "%", s) <==> w <= s
  {
    if w == [] {
      assert w + "%" == "%";
      PercentMatchesAll(s);
    } else {
      assert (w + "%")[1..] == w[1..] + "%";
      if s != [] {
        LiteralThenPercent(w[1..], s[1..]);
        assert w <= s <==> w[0] == s[0] && w[1..] <= s[1..];
      }
    }
  }

  /** A leading '%' lets the rest of the pattern start at any position. */
  lemma {:induction false} LeadingPercent(q: string, s: string)
    ensures Like("%" + q, s) <==> exists k :: 0 <= k <= |s| && Like(q, s[k..])
  {
    var p := "%" + q;
    assert p[0] == '%' && p[1..] == q;
    if s == [] {
      assert Like(p, s) <==> Like(q, s[0..]);
    } else {
      LeadingPercent(q, s[1..]);
      if Like(p, s) {
        if Like(q, s) {
          assert s[0..] == s;
        } else {
          var k :| 0 <= k <= |s[1..]| && Like(q, s[1..][k..]);
          assert s[1..][k..] == s[k + 1..];
        }
      }
      if exists k :: 0 <= k <= |s| && Like(q, s[k..]) {
        var k :| 0 <= k <= |s| && Like(q, s[k..]);
        if k == 0 {
          assert s[0..] == s;
        } else {
          assert s[1..][k - 1..] == s[k..];
        }
      }
    }
  }

  /** For a term without wildcards, `%term%` is plain substring search. */
  lemma LikeIsContains(w: string, s: string)
    requires NoWildcards(w)
    ensures Like("%" + w + "%", s) <==> Contains(s, w)
  {
    assert "%" + w + "%" == "%" + (w + "%");
    LeadingPercent(w + "%", s);
    forall k | 0 <= k <= |s|
      ensures Like(w + "%", s[k..]) <==> w <= s[k..]
    {
      LiteralThenPercent(w, s[k..]);
    }
  }
}

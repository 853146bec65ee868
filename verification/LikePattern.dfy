/** Search text inside a LIKE pattern (backend/app/reports/query.py). */
module LikePattern {

  /** `str.replace` of one character. */
  function Replace(s: string, c: char, with: string): string {
    if s == "" then "" else (if s[0] == c then with else [s[0]]) + Replace(s[1..], c, with)
  }

  /** `_escape_like`: three replacements, the escape character first. */
  function EscapeLike(v: string): string {
    Replace(Replace(Replace(v, '\\', "\\\\"), '%', "\\%"), '_', "\\_")
  }

  predicate Special(c: char) { c == '\\' || c == '%' || c == '_' }

  function Escaped(v: string): string {
    if v == "" then "" else (if Special(v[0]) then ['\\', v[0]] else [v[0]]) + Escaped(v[1..])
  }

  lemma {:induction false} ReplaceConcat(a: string, b: string, c: char, with: string)
    ensures Replace(a + b, c, with) == Replace(a, c, with) + Replace(b, c, with)
  {
    if a == "" {
      assert a + b == b;
    } else {
      assert (a + b)[1..] == a[1..] + b;
      ReplaceConcat(a[1..], b, c, with);
    }
  }

  /** In that order no replacement touches what an earlier one put in: every special character gets one escape. */
  lemma {:induction false} EscapeLikeIsCharwise(v: string)
    ensures EscapeLike(v) == Escaped(v)
  {
    if v != "" {
      var head, tail := [v[0]], v[1..];
      assert v == head + tail;
      EscapeLikeIsCharwise(tail);
      ReplaceConcat(head, tail, '\\', "\\\\");
      var h1, t1 := Replace(head, '\\', "\\\\"), Replace(tail, '\\', "\\\\");
      ReplaceConcat(h1, t1, '%', "\\%");
      var h2, t2 := Replace(h1, '%', "\\%"), Replace(t1, '%', "\\%");
      ReplaceConcat(h2, t2, '_', "\\_");
      OneCharacter(v[0]);
    }
  }

  lemma OneCharacter(c: char)
    ensures EscapeLike([c]) == if Special(c) then ['\\', c] else [c]
  {
    assert Replace([c], '\\', "\\\\") == if c == '\\' then "\\\\" else [c];
    ReplaceConcat("\\", "\\", '%', "\\%");
    ReplaceConcat("\\", "\\", '_', "\\_");
    ReplaceConcat("\\", "%", '_', "\\_");
  }

  /** `s ILIKE p ESCAPE '\'`, with letters compared by `fold`: `%` stands for any characters, `_` for one,
      and the character after the escape for itself. A pattern that ends in the escape matches nothing. */
  predicate Like(s: string, p: string, fold: char -> char)
    decreases |s| + |p|
  {
    if p == "" then s == ""
    else if p[0] == '\\' then |p| > 1 && s != "" && fold(s[0]) == fold(p[1]) && Like(s[1..], p[2..], fold)
    else if p[0] == '%' then Like(s, p[1..], fold) || (s != "" && Like(s[1..], p, fold))
    else s != "" && (p[0] == '_' || fold(s[0]) == fold(p[0])) && Like(s[1..], p[1..], fold)
  }

  predicate StartsWith(s: string, v: string, fold: char -> char) {
    |v| <= |s| && forall i :: 0 <= i < |v| ==> fold(s[i]) == fold(v[i])
  }

  predicate Contains(s: string, v: string, fold: char -> char) {
    exists k :: 0 <= k <= |s| && StartsWith(s[k..], v, fold)
  }

  lemma {:induction false} PercentMatchesAll(s: string, fold: char -> char)
    ensures Like(s, "%", fold)
  {
    if s != "" { PercentMatchesAll(s[1..], fold); }
  }

  lemma {:induction false} EscapedThenPercent(s: string, v: string, fold: char -> char)
    ensures Like(s, Escaped(v) + "%", fold) <==> StartsWith(s, v, fold)
  {
    if v == "" {
      assert Escaped(v) + "%" == "%";
      PercentMatchesAll(s, fold);
    } else {
      var p := Escaped(v) + "%";
      var rest := Escaped(v[1..]) + "%";
      assert p == (if Special(v[0]) then ['\\', v[0]] else [v[0]]) + rest;
      assert if Special(v[0]) then p[2..] == rest else p[1..] == rest;
      if s != "" {
        EscapedThenPercent(s[1..], v[1..], fold);
        assert StartsWith(s, v, fold) <==> fold(s[0]) == fold(v[0]) && StartsWith(s[1..], v[1..], fold) by {
          StartsWithStep(s, v, fold);
        }
      }
    }
  }

  lemma StartsWithStep(s: string, v: string, fold: char -> char)
    requires s != "" && v != ""
    ensures StartsWith(s, v, fold) <==> fold(s[0]) == fold(v[0]) && StartsWith(s[1..], v[1..], fold)
  {
    if fold(s[0]) == fold(v[0]) && StartsWith(s[1..], v[1..], fold) {
      forall i | 0 <= i < |v| ensures fold(s[i]) == fold(v[i]) {
        if i > 0 { assert s[i] == s[1..][i - 1] && v[i] == v[1..][i - 1]; }
      }
    }
    if StartsWith(s, v, fold) {
      forall i | 0 <= i < |v| - 1 ensures fold(s[1..][i]) == fold(v[1..][i]) {
        assert s[1..][i] == s[i + 1] && v[1..][i] == v[i + 1];
      }
    }
  }

  /** `starts_with` finds exactly the texts that start with the value, whatever characters it has. */
  lemma StartsWithIsExact(s: string, v: string, fold: char -> char)
    ensures Like(s, EscapeLike(v) + "%", fold) <==> StartsWith(s, v, fold)
  {
    EscapeLikeIsCharwise(v);
    EscapedThenPercent(s, v, fold);
  }

  lemma {:induction false} AfterPercent(s: string, p: string, fold: char -> char)
    ensures Like(s, "%" + p, fold) <==> exists k :: 0 <= k <= |s| && Like(s[k..], p, fold)
  {
    assert ("%" + p)[1..] == p;
    assert s[0..] == s;
    if s != "" {
      AfterPercent(s[1..], p, fold);
      forall k | 0 <= k < |s| ensures s[1..][k..] == s[k + 1..] {}
      if k :| 0 <= k <= |s| && Like(s[k..], p, fold) {
        if k > 0 { assert s[1..][k - 1..] == s[k..]; }
      }
      if k :| 0 <= k <= |s| - 1 && Like(s[1..][k..], p, fold) {
        assert s[1..][k..] == s[k + 1..];
      }
    }
  }

  /** `contains` finds exactly the texts the value occurs in. */
  lemma ContainsIsExact(s: string, v: string, fold: char -> char)
    ensures Like(s, "%" + EscapeLike(v) + "%", fold) <==> Contains(s, v, fold)
  {
    assert "%" + EscapeLike(v) + "%" == "%" + (EscapeLike(v) + "%");
    AfterPercent(s, EscapeLike(v) + "%", fold);
    forall k | 0 <= k <= |s| ensures Like(s[k..], EscapeLike(v) + "%", fold) <==> StartsWith(s[k..], v, fold) {
      StartsWithIsExact(s[k..], v, fold);
    }
  }
}

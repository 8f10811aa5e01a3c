/** The conversions the PostgreSQL server applies on the way in and out of the tables:
    reading an `integer` from text, writing a text array (`varchar[]`) as text, and the
    `LIKE` pattern match. */
module Postgres {
  import opened Common
  import opened Text

  const MinInt4: int := -2147483648
  const MaxInt4: int := 2147483647

  /** The text-to-`integer` input conversion: an optional sign and at least one decimal
      digit, within the 32-bit range; anything else is an error (`None`). */
  function ParseInt4(s: string): (r: Option<int>)
    ensures r.Some? ==> MinInt4 <= r.value <= MaxInt4
    ensures r.Some? ==>
      || (AllDigits(s) && s != [] && r.value == DigitsValue(s))
      || (|s| > 1 && s[0] == '+' && AllDigits(s[1..]) && r.value == DigitsValue(s[1..]))
      || (|s| > 1 && s[0] == '-' && AllDigits(s[1..]) && r.value == -(DigitsValue(s[1..]) as int))
    ensures s != [] && AllDigits(s) && DigitsValue(s) <= MaxInt4 ==> r == Some(DigitsValue(s))
    ensures |s| > 1 && s[0] == '+' && AllDigits(s[1..]) && DigitsValue(s[1..]) <= MaxInt4 ==>
      r == Some(DigitsValue(s[1..]))
    ensures |s| > 1 && s[0] == '-' && AllDigits(s[1..]) && DigitsValue(s[1..]) <= -MinInt4 ==>
      r == Some(-(DigitsValue(s[1..]) as int))
  {
    var signed := |s| > 0 && (s[0] == '-' || s[0] == '+');
    var digits := if signed then s[1..] else s;
    if digits == [] || !AllDigits(digits) then None
    else
      var magnitude: int := DigitsValue(digits);
      var n: int := if signed && s[0] == '-' then -magnitude else magnitude;
      if MinInt4 <= n <= MaxInt4 then Some(n) else None
  }

  /** Every 32-bit integer written out by Python's `str` is read back as itself. */
  lemma ParseIntText(n: int)
    requires MinInt4 <= n <= MaxInt4
    ensures ParseInt4(IntText(n)) == Some(n)
  {
    if n < 0 {
      NatTextValue(-n);
      assert IntText(n)[1..] == NatText(-n);
    } else {
      NatTextValue(n);
      var d := NatText(n);
      assert IsDigit(d[0]);
    }
  }

  /** A leading plus sign and leading zeros are accepted; a bare sign and trailing
      garbage are not. */
  lemma ParseInt4Examples()
    ensures ParseInt4("+5") == Some(5)
    ensures ParseInt4("007") == Some(7)
    ensures ParseInt4("+") == None
    ensures ParseInt4("1x") == None
  {
    assert "+5"[1..] == "5" && "5"[..0] == "";
    assert DigitsValue("5") == 5;
    assert "007"[..2] == "00" && "00"[..1] == "0";
    assert !IsDigit('x');
  }

  /** A character that forces an array element to be written inside double quotes. */
  predicate IsArraySpecial(c: char)
  {
    c == '"' || c == '\\' || c == '{' || c == '}' || c == ',' ||
    c == ' ' || c == '\t' || c == '\n' || c == '\r' || c == '\U{000B}' || c == '\U{000C}'
  }

  /** An array element is quoted when it is empty, reads as NULL in any case, or holds a
      special character. */
  predicate NeedsQuotes(e: string)
  {
    e == "" || Lower(e) == "null" || exists i :: 0 <= i < |e| && IsArraySpecial(e[i])
  }

  /** A backslash before every double quote and backslash of a quoted element. */
  function EscapeElement(e: string): string
  {
    if e == [] then []
    else (if e[0] == '"' || e[0] == '\\' then ['\\', e[0]] else [e[0]]) + EscapeElement(e[1..])
  }

  function ElementText(e: string): string
  {
    if NeedsQuotes(e) then ['"'] + EscapeElement(e) + ['"'] else e
  }

  function ElementTexts(gs: seq<string>): (r: seq<string>)
    ensures |r| == |gs| && forall i :: 0 <= i < |gs| ==> r[i] == ElementText(gs[i])
  {
    seq(|gs|, i requires 0 <= i < |gs| => ElementText(gs[i]))
  }

  /** The text form of a `varchar[]` value: its elements between braces, separated by
      commas, each quoted when it needs to be. */
  function ArrayText(gs: seq<string>): string
  {
    "{" + Join(ElementTexts(gs), ',') + "}"
  }

  /** `s LIKE p` with backslash, the default escape character: `%` matches any run of
      characters, `_` any one character, a backslash makes the next character literal. */
  predicate LikeMatch(p: string, s: string)
    decreases |p| + |s|
  {
    if p == [] then s == []
    else if p[0] == '%' then LikeMatch(p[1..], s) || (s != [] && LikeMatch(p, s[1..]))
    else if p[0] == '_' then s != [] && LikeMatch(p[1..], s[1..])
    else if p[0] == '\\' && |p| >= 2 then s != [] && s[0] == p[1] && LikeMatch(p[2..], s[1..])
    else s != [] && s[0] == p[0] && LikeMatch(p[1..], s[1..])
  }

  /** No character of `t` has a meaning of its own inside a LIKE pattern. */
  predicate NoWildcards(t: string)
  {
    forall i :: 0 <= i < |t| ==> t[i] != '%' && t[i] != '_' && t[i] != '\\'
  }

  /** A lone `%` matches every string. */
  lemma {:induction false} LikePercentMatchesAll(s: string)
    ensures LikeMatch("%", s)
    decreases |s|
  {
    if s != [] {
      LikePercentMatchesAll(s[1..]);
    }
  }

  /** `t%` matches exactly the strings that start with `t`, when `t` has no wildcards. */
  lemma {:induction false} LikePrefix(t: string, s: string)
    requires NoWildcards(t)
    ensures LikeMatch(t + "%", s) <==> |t| <= |s| && s[..|t|] == t
    decreases |t|
  {
    if t == [] {
      LikePercentMatchesAll(s);
      assert t + "%" == "%";
    } else {
      var p := t + "%";
      assert p[0] == t[0] && p[1..] == t[1..] + "%";
      if s != [] {
        LikePrefix(t[1..], s[1..]);
        if |t| <= |s| && s[..|t|] == t {
          assert s[1..][..|t| - 1] == t[1..];
        }
      }
    }
  }

  /** A leading `%` lets the rest of the pattern match any suffix. */
  lemma {:induction false} LikeLeadingPercent(q: string, s: string)
    ensures LikeMatch("%" + q, s) <==> exists k :: 0 <= k <= |s| && LikeMatch(q, s[k..])
    decreases |s|
  {
    var p := "%" + q;
    assert p[1..] == q;
    assert s[0..] == s;
    if s != [] {
      LikeLeadingPercent(q, s[1..]);
      if LikeMatch(p, s[1..]) {
        var k :| 0 <= k <= |s[1..]| && LikeMatch(q, s[1..][k..]);
        assert s[1..][k..] == s[k + 1..];
      }
      if exists k :: 0 <= k <= |s| && LikeMatch(q, s[k..]) {
        var k :| 0 <= k <= |s| && LikeMatch(q, s[k..]);
        if k > 0 {
          assert s[1..][k - 1..] == s[k..];
        }
      }
    }
  }

  /** `%t%` matches exactly the strings that contain `t`, when `t` has no wildcards. */
  lemma LikeContains(t: string, s: string)
    requires NoWildcards(t)
    ensures LikeMatch("%" + t + "%", s) <==> Contains(s, t)
  {
    assert "%" + t + "%" == "%" + (t + "%");
    LikeLeadingPercent(t + "%", s);
    if LikeMatch("%" + t + "%", s) {
      var k :| 0 <= k <= |s| && LikeMatch(t + "%", s[k..]);
      LikePrefix(t, s[k..]);
      assert s[k..][..|t|] == s[k..k + |t|];
      assert OccursAt(s, t, k);
    }
    if Contains(s, t) {
      var k :| 0 <= k <= |s| - |t| && OccursAt(s, t, k);
      LikePrefix(t, s[k..]);
      assert s[k..][..|t|] == s[k..k + |t|];
    }
  }

  /** An underscore in the pattern matches any character: `%a_c%` matches `abc`, which
      does not contain the text `a_c`. */
  lemma UnderscoreIsAWildcard()
    ensures LikeMatch("%a_c%", "abc") && !Contains("abc", "a_c")
  {
    assert LikeMatch("%", "");
    assert LikeMatch("c%", "c");
    assert LikeMatch("_c%", "bc");
    assert LikeMatch("a_c%", "abc");
    assert !OccursAt("abc", "a_c", 0);
  }
}

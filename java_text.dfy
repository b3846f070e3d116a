/** Java and SQL text semantics the application relies on: nullable values, String.trim,
    String.join, 32-bit int arithmetic and the LIKE matching of the media provider's queries. */
module JavaText {

  /** A Java reference that may be null. */
  datatype Option<T> = None | Some(value: T)

  /** Java's String.trim() removes every leading and trailing char whose code is at most U+0020. */
  predicate IsTrimmable(c: char) {
    c <= ' '
  }

  predicate AllTrimmable(s: string) {
    forall i :: 0 <= i < |s| ==> IsTrimmable(s[i])
  }

  /** Drops the leading trimmable chars: what remains starts with a kept char. */
  function TrimStart(s: string): (r: string)
    ensures |r| <= |s|
    ensures r == [] || !IsTrimmable(r[0])
  {
    if |s| > 0 && IsTrimmable(s[0]) then TrimStart(s[1..]) else s
  }

  /** What TrimStart drops is a prefix of trimmable chars, and what it keeps is the rest. */
  lemma {:induction false} TrimStartIsSuffix(s: string)
    ensures var r := TrimStart(s);
      r == s[|s| - |r|..] && AllTrimmable(s[..|s| - |r|])
    decreases |s|
  {
    if |s| > 0 && IsTrimmable(s[0]) {
      TrimStartIsSuffix(s[1..]);
      var r := TrimStart(s[1..]);
      assert s[1..][|s| - 1 - |r|..] == s[|s| - |r|..];
      forall i | 0 <= i < |s| - |r| ensures IsTrimmable(s[i]) {
        if i > 0 { assert s[i] == s[1..][..|s| - 1 - |r|][i - 1]; }
      }
    }
  }

  /** Drops the trailing trimmable chars: what remains ends with a kept char. */
  function TrimEnd(s: string): (r: string)
    ensures |r| <= |s|
    ensures r == [] || !IsTrimmable(r[|r| - 1])
  {
    if |s| > 0 && IsTrimmable(s[|s| - 1]) then TrimEnd(s[..|s| - 1]) else s
  }

  /** What TrimEnd drops is a suffix of trimmable chars, and what it keeps is the rest. */
  lemma {:induction false} TrimEndIsPrefix(s: string)
    ensures var r := TrimEnd(s);
      r == s[..|r|] && AllTrimmable(s[|r|..])
    decreases |s|
  {
    if |s| > 0 && IsTrimmable(s[|s| - 1]) {
      var u := s[..|s| - 1];
      TrimEndIsPrefix(u);
      var r := TrimEnd(u);
      assert u[..|r|] == s[..|r|];
      forall i | |r| <= i < |s| ensures IsTrimmable(s[i]) {
        if i < |s| - 1 { assert s[i] == u[|r|..][i - |r|]; }
      }
    }
  }

  /** String.trim(): the string without its leading and trailing trimmable chars; a non-empty
      result starts and ends with a kept char. */
  function Trim(s: string): (r: string)
    ensures |r| <= |s|
    ensures r != [] ==> !IsTrimmable(r[0]) && !IsTrimmable(r[|r| - 1])
  {
    var t := TrimStart(s);
    TrimEndIsPrefix(t);
    TrimEnd(t)
  }

  /** Trim yields the empty string exactly when every char is trimmable. */
  lemma TrimEmptyIffBlank(s: string)
    ensures Trim(s) == [] <==> AllTrimmable(s)
  {
    var t := TrimStart(s);
    var k := |s| - |t|;
    TrimStartIsSuffix(s);
    TrimEndIsPrefix(t);
    if Trim(s) == [] {
      assert t[0..] == t;
      assert t == [];
      forall i | 0 <= i < |s| ensures IsTrimmable(s[i]) {
        assert s[i] == s[..k][i];
      }
    }
    if t != [] {
      assert t[0] == s[k];
    }
  }

  /** Trim removes only trimmable chars, and only from the two ends: the result is the factor of s
      between a trimmable prefix and a trimmable suffix. */
  lemma TrimIsFactor(s: string) returns (k: nat)
    ensures k + |Trim(s)| <= |s| && Trim(s) == s[k..k + |Trim(s)|]
    ensures AllTrimmable(s[..k]) && AllTrimmable(s[k + |Trim(s)|..])
  {
    var t := TrimStart(s);
    var r := TrimEnd(t);
    TrimStartIsSuffix(s);
    TrimEndIsPrefix(t);
    k := |s| - |t|;
    assert Trim(s) == r;
    assert t == s[k..];
    assert r == t[..|r|] == s[k..k + |r|];
    assert t[|r|..] == s[k + |r|..];
  }

  lemma {:induction false} TrimStartOfKept(s: string)
    requires s != [] && !IsTrimmable(s[0])
    ensures TrimStart(s) == s
  {
  }

  /** A string that ends with a kept char loses nothing at the end. */
  lemma TrimEndOfKept(s: string)
    requires s != [] && !IsTrimmable(s[|s| - 1])
    ensures TrimEnd(s) == s
  {
  }

  /** A string that already starts and ends with kept chars is left unchanged by trim. */
  lemma TrimOfTrimmed(s: string)
    requires s == [] || (!IsTrimmable(s[0]) && !IsTrimmable(s[|s| - 1]))
    ensures Trim(s) == s
  {
  }

  /** Trimming is idempotent. */
  lemma TrimIdempotent(s: string)
    ensures Trim(Trim(s)) == Trim(s)
  {
    TrimOfTrimmed(Trim(s));
  }

  /** Trailing trimmable chars never survive TrimEnd. */
  lemma {:induction false} TrimEndDropsSuffix(a: string, b: string)
    requires AllTrimmable(b)
    ensures TrimEnd(a + b) == TrimEnd(a)
    decreases |b|
  {
    if b != [] {
      assert (a + b)[..|a + b| - 1] == a + b[..|b| - 1];
      TrimEndDropsSuffix(a, b[..|b| - 1]);
    } else {
      assert a + b == a;
    }
  }

  /** Once the right-hand part holds a kept char, TrimEnd only touches that part. */
  lemma {:induction false} TrimEndKeepsPrefix(a: string, b: string)
    requires !AllTrimmable(b)
    ensures TrimEnd(a + b) == a + TrimEnd(b)
    decreases |b|
  {
    if IsTrimmable(b[|b| - 1]) {
      assert (a + b)[..|a + b| - 1] == a + b[..|b| - 1];
      TrimEndKeepsPrefix(a, b[..|b| - 1]);
    }
  }

  /** String.join(sep, parts). */
  function Join(sep: string, parts: seq<string>): string
  {
    if parts == [] then ""
    else if |parts| == 1 then parts[0]
    else parts[0] + sep + Join(sep, parts[1..])
  }

  /** The joined string ends with the last part. */
  lemma {:induction false} JoinEndsWithLast(sep: string, parts: seq<string>)
    requires parts != []
    ensures var j := Join(sep, parts); var l := parts[|parts| - 1];
      |l| <= |j| && j[|j| - |l|..] == l
  {
    if |parts| > 1 {
      JoinEndsWithLast(sep, parts[1..]);
      var j := Join(sep, parts[1..]);
      assert Join(sep, parts) == (parts[0] + sep) + j;
    }
  }

  // ---------------------------------------------------------------------------
  // 32-bit Java int arithmetic

  const TWO_TO_THE_32: int := 0x1_0000_0000
  const TWO_TO_THE_31: int := 0x8000_0000

  newtype int32 = x: int | -0x8000_0000 <= x < 0x8000_0000

  /** The value a Java int expression takes: the mathematical result reduced modulo 2^32 into
      [-2^31, 2^31). */
  function Wrap32(x: int): (r: int32)
    ensures (r as int - x) % TWO_TO_THE_32 == 0
  {
    (((x + TWO_TO_THE_31) % TWO_TO_THE_32) - TWO_TO_THE_31) as int32
  }

  /** Two Java int results whose exact values differ by one are distinct. */
  lemma Wrap32Successor(x: int)
    ensures Wrap32(x) != Wrap32(x + 1)
  {
  }

  // ---------------------------------------------------------------------------
  // SQL LIKE as evaluated by the media provider (SQLite): '%' matches any run of chars,
  // '_' matches one char, other chars match ignoring ASCII case.

  function AsciiLower(c: char): char
  {
    if 'A' <= c <= 'Z' then (c as int - 'A' as int + 'a' as int) as char else c
  }

  predicate IsWildcard(c: char) {
    c == '%' || c == '_'
  }

  predicate Like(pattern: string, s: string)
    decreases |pattern| + |s|
  {
    if pattern == [] then s == []
    else if pattern[0] == '%' then Like(pattern[1..], s) || (s != [] && Like(pattern, s[1..]))
    else s != [] && (pattern[0] == '_' || AsciiLower(pattern[0]) == AsciiLower(s[0]))
         && Like(pattern[1..], s[1..])
  }

  predicate HasWildcard(s: string) {
    exists i :: 0 <= i < |s| && IsWildcard(s[i])
  }

  /** "%" + needle + "%" matches every string that contains the needle verbatim. */
  lemma {:induction false} LikeContains(needle: string, a: string, b: string)
    requires !HasWildcard(needle)
    ensures Like("%" + needle + "%", a + needle + b)
    decreases |a|
  {
    var p := "%" + needle + "%";
    if a == [] {
      assert a + needle + b == needle + b;
      assert p[1..] == needle + "%";
      LikeLiteralThenAny(needle, b);
    } else {
      assert (a + needle + b)[1..] == a[1..] + needle + b;
      LikeContains(needle, a[1..], b);
    }
  }

  lemma {:induction false} LikeLiteralThenAny(needle: string, b: string)
    requires !HasWildcard(needle)
    ensures Like(needle + "%", needle + b)
    decreases |needle|
  {
    if needle == [] {
      assert needle + "%" == "%" && needle + b == b;
      LikeAnyMatchesAll(b);
    } else {
      assert !IsWildcard(needle[0]);
      assert !HasWildcard(needle[1..]) by {
        forall i | 0 <= i < |needle[1..]| ensures !IsWildcard(needle[1..][i]) {
          assert needle[1..][i] == needle[i + 1];
        }
      }
      assert (needle + "%")[1..] == needle[1..] + "%";
      assert (needle + b)[1..] == needle[1..] + b;
      LikeLiteralThenAny(needle[1..], b);
    }
  }

  lemma {:induction false} LikeAnyMatchesAll(s: string)
    ensures Like("%", s)
    decreases |s|
  {
    assert "%"[1..] == [];
    if s != [] {
      LikeAnyMatchesAll(s[1..]);
    }
  }

  /** A pattern "%" + needle + "%" whose needle starts with an ordinary char c can only match a
      string that holds c somewhere (ignoring ASCII case). */
  lemma {:induction false} LikeNeedsFirstChar(needle: string, s: string)
    requires needle != [] && !IsWildcard(needle[0])
    requires Like("%" + needle + "%", s)
    ensures exists i :: 0 <= i < |s| && AsciiLower(s[i]) == AsciiLower(needle[0])
    decreases |s|
  {
    var p := "%" + needle + "%";
    assert p[0] == '%' && p[1..] == needle + "%";
    if Like(p[1..], s) {
      assert (needle + "%")[0] == needle[0];
      assert s != [] && AsciiLower(s[0]) == AsciiLower(needle[0]);
    } else {
      LikeNeedsFirstChar(needle, s[1..]);
      var i :| 0 <= i < |s[1..]| && AsciiLower(s[1..][i]) == AsciiLower(needle[0]);
      assert s[i + 1] == s[1..][i];
    }
  }
}

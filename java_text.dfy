/** The parts of java.lang.String (and of PHP's and JavaScript's string
    helpers) that the core relies on: indexOf, substring search, trim,
    ASCII case folding and the three flavours of split. */
module JavaText {

  /** String.indexOf(char): the first index of c, or -1. */
  function IndexOf(s: string, c: char): (r: int)
    ensures -1 <= r < |s|
    ensures r == -1 <==> c !in s
    ensures r >= 0 ==> s[r] == c && c !in s[..r]
  {
    if |s| == 0 then -1
    else if s[0] == c then 0
    else
      var k := IndexOf(s[1..], c);
      assert s[1..][..if k < 0 then 0 else k] == s[1..if k < 0 then 1 else k + 1];
      if k < 0 then -1 else k + 1
  }

  /** The first c in a + [c] + rest is the one after a. */
  lemma {:induction false} IndexOfAfter(a: string, c: char, rest: string)
    requires c !in a
    ensures IndexOf(a + [c] + rest, c) == |a|
  {
    var s := a + [c] + rest;
    if a != [] {
      assert s[1..] == a[1..] + [c] + rest;
      IndexOfAfter(a[1..], c, rest);
    }
  }

  lemma IndexOfAbsent(s: string, c: char)
    requires c !in s
    ensures IndexOf(s, c) == -1
  {
  }

  /** Whether t occurs in s at position i. */
  predicate OccursAt(s: string, t: string, i: nat)
  {
    i + |t| <= |s| && s[i..i + |t|] == t
  }

  /** String.indexOf(String): the first position where t occurs, or -1. */
  function IndexOfString(s: string, t: string): (r: int)
    ensures -1 <= r <= |s|
    ensures r >= 0 ==> OccursAt(s, t, r) && forall j :: 0 <= j < r ==> !OccursAt(s, t, j)
    ensures r == -1 ==> forall j :: 0 <= j <= |s| ==> !OccursAt(s, t, j)
  {
    IndexOfStringFrom(s, t, 0)
  }

  function IndexOfStringFrom(s: string, t: string, i: nat): (r: int)
    requires i <= |s|
    ensures -1 <= r <= |s|
    ensures r >= 0 ==> i <= r && OccursAt(s, t, r) && forall j :: i <= j < r ==> !OccursAt(s, t, j)
    ensures r == -1 ==> forall j :: i <= j <= |s| ==> !OccursAt(s, t, j)
    decreases |s| - i
  {
    if OccursAt(s, t, i) then i
    else if i == |s| then -1
    else IndexOfStringFrom(s, t, i + 1)
  }

  /** Character.toLowerCase restricted to ASCII letters. */
  function LowerChar(c: char): char
  {
    if 'A' <= c <= 'Z' then (c as int + 32) as char else c
  }

  /** Character.toUpperCase restricted to ASCII letters. */
  function UpperChar(c: char): char
  {
    if 'a' <= c <= 'z' then (c as int - 32) as char else c
  }

  /** String.toLowerCase with ASCII folding. */
  function ToLower(s: string): (r: string)
    ensures |r| == |s|
    ensures forall i :: 0 <= i < |s| ==> r[i] == LowerChar(s[i])
  {
    seq(|s|, i requires 0 <= i < |s| => LowerChar(s[i]))
  }

  /** String.equalsIgnoreCase with ASCII folding. */
  predicate EqualsIgnoreCase(a: string, b: string)
  {
    |a| == |b| && forall i :: 0 <= i < |a| ==> LowerChar(a[i]) == LowerChar(b[i])
  }

  /** Two strings are equal ignoring case iff their lower-case forms are equal. */
  lemma EqualsIgnoreCaseIffLower(a: string, b: string)
    ensures EqualsIgnoreCase(a, b) <==> ToLower(a) == ToLower(b)
  {
    if ToLower(a) == ToLower(b) {
      forall i | 0 <= i < |a|
        ensures LowerChar(a[i]) == LowerChar(b[i])
      {
        assert ToLower(a)[i] == ToLower(b)[i];
      }
    }
  }

  /** `s.toLowerCase().startsWith(p)` for a lower-case ASCII prefix p. */
  predicate LowerStartsWith(s: string, p: string)
  {
    |p| <= |s| && ToLower(s)[..|p|] == p
  }

  /** Lower-casing a suffix is the suffix of the lower-cased text, so the
      phrase starts a suffix exactly where it occurs in the lowered text. */
  lemma LowerStartsWithAt(s: string, p: string, j: nat)
    requires j <= |s|
    ensures LowerStartsWith(s[j..], p) <==> OccursAt(ToLower(s), p, j)
  {
    ToLowerSuffix(s, j);
    if j + |p| <= |s| {
      assert ToLower(s)[j..][..|p|] == ToLower(s)[j..j + |p|];
    }
  }

  lemma ToLowerSuffix(s: string, j: nat)
    requires j <= |s|
    ensures ToLower(s[j..]) == ToLower(s)[j..]
  {
    var l, m := ToLower(s[j..]), ToLower(s)[j..];
    assert |l| == |m|;
    forall k | 0 <= k < |l|
      ensures l[k] == m[k]
    {
      assert s[j..][k] == s[j + k];
    }
  }

  /** String.trim: drops every leading and trailing character <= ' '. */
  function Trim(s: string): (r: string)
    ensures |r| <= |s|
    ensures r != [] ==> r[0] > ' ' && r[|r| - 1] > ' '
  {
    TrimEnd(TrimStart(s))
  }

  function TrimStart(s: string): (r: string)
    ensures |r| <= |s| && r == s[|s| - |r|..]
    ensures r != [] ==> r[0] > ' '
  {
    if s != [] && s[0] <= ' ' then TrimStart(s[1..]) else s
  }

  function TrimEnd(s: string): (r: string)
    ensures |r| <= |s| && r == s[..|r|]
    ensures r != [] ==> r[0] == s[0] && r[|r| - 1] > ' '
  {
    if s != [] && s[|s| - 1] <= ' ' then TrimEnd(s[..|s| - 1]) else s
  }

  /** Every piece of s between occurrences of c, empty pieces included:
      JavaScript's split and PHP's explode with a one-character separator. */
  function SplitAll(s: string, c: char): (r: seq<string>)
    ensures |r| >= 1
    ensures forall k :: 0 <= k < |r| ==> c !in r[k]
    decreases |s|
  {
    var i := IndexOf(s, c);
    if i < 0 then [s] else [s[..i]] + SplitAll(s[i + 1..], c)
  }

  lemma SplitAllAfter(a: string, c: char, rest: string)
    requires c !in a
    ensures SplitAll(a + [c] + rest, c) == [a] + SplitAll(rest, c)
  {
    var s := a + [c] + rest;
    IndexOfAfter(a, c, rest);
    assert s[..|a|] == a && s[|a| + 1..] == rest;
  }

  lemma SplitAllAbsent(s: string, c: char)
    requires c !in s
    ensures SplitAll(s, c) == [s]
  {
  }

  /** The inverse of SplitAll: the pieces joined with c. */
  function Join(pieces: seq<string>, c: char): string
  {
    if |pieces| <= 1 then (if pieces == [] then [] else pieces[0])
    else pieces[0] + [c] + Join(pieces[1..], c)
  }

  lemma JoinCons(p: string, rest: seq<string>, c: char)
    requires rest != []
    ensures Join([p] + rest, c) == p + [c] + Join(rest, c)
  {
    assert ([p] + rest)[1..] == rest;
  }

  /** One turn of SplitAll at the first occurrence of c. */
  lemma SplitAllAt(s: string, c: char, i: int)
    requires i == IndexOf(s, c) && i >= 0
    ensures SplitAll(s, c) == [s[..i]] + SplitAll(s[i + 1..], c)
    ensures s == s[..i] + [c] + s[i + 1..]
  {
  }

  /** The first piece runs from the start to the first c, or to the end. */
  lemma SplitAllFirst(s: string, c: char)
    ensures var p := SplitAll(s, c)[0];
      p <= s && c !in p && (|p| == |s| || s[|p|] == c)
  {
    var i := IndexOf(s, c);
    if i >= 0 {
      SplitAllAt(s, c, i);
    }
  }

  lemma {:induction false} JoinSplitAll(s: string, c: char)
    ensures Join(SplitAll(s, c), c) == s
    decreases |s|
  {
    var i := IndexOf(s, c);
    if i >= 0 {
      SplitAllAt(s, c, i);
      JoinSplitAll(s[i + 1..], c);
      JoinCons(s[..i], SplitAll(s[i + 1..], c), c);
    }
  }

  function DropTrailingEmpty(pieces: seq<string>): (r: seq<string>)
    ensures |r| <= |pieces| && r == pieces[..|r|]
    ensures r != [] ==> r[|r| - 1] != ""
    ensures forall k :: |r| <= k < |pieces| ==> pieces[k] == ""
  {
    if pieces == [] then []
    else if pieces[|pieces| - 1] == "" then DropTrailingEmpty(pieces[..|pieces| - 1])
    else pieces
  }

  /** String.split with a one-character literal separator (limit 0): a
      string without the separator is the only piece (so "" gives [""]),
      otherwise trailing empty pieces are removed. */
  function JavaSplit(s: string, c: char): (r: seq<string>)
  {
    if c !in s then [s] else DropTrailingEmpty(SplitAll(s, c))
  }

  /** s.endsWith(suffix). */
  predicate EndsWith(s: string, suffix: string)
  {
    |suffix| <= |s| && s[|s| - |suffix|..] == suffix
  }

  /** s.compareTo(t) < 0: lexicographic order by character, a proper
      prefix first. */
  predicate CompareLess(s: string, t: string)
    decreases |s|
  {
    if s == [] then t != []
    else if t == [] then false
    else if s[0] < t[0] then true
    else s[0] == t[0] && CompareLess(s[1..], t[1..])
  }

  lemma {:induction false} CompareLessIrreflexive(s: string)
    ensures !CompareLess(s, s)
    decreases |s|
  {
    if s != [] {
      CompareLessIrreflexive(s[1..]);
    }
  }

  lemma {:induction false} CompareLessTransitive(a: string, b: string, c: string)
    requires CompareLess(a, b) && CompareLess(b, c)
    ensures CompareLess(a, c)
    decreases |a|
  {
    if a != [] && a[0] == b[0] && b[0] == c[0] {
      CompareLessTransitive(a[1..], b[1..], c[1..]);
    }
  }

  lemma {:induction false} CompareLessTotal(a: string, b: string)
    requires a != b
    ensures CompareLess(a, b) || CompareLess(b, a)
    decreases |a|
  {
    if a != [] && b != [] && a[0] == b[0] {
      assert a == [a[0]] + a[1..] && b == [b[0]] + b[1..];
      CompareLessTotal(a[1..], b[1..]);
    }
  }

  /** The decimal text of an integer, as PHP's string conversion and
      Integer.toString write it. */
  function Decimal(n: int): (r: string)
    ensures |r| > 0
    decreases if n < 0 then -n + 1 else n
  {
    if n < 0 then "-" + Decimal(-n)
    else if n < 10 then [['0', '1', '2', '3', '4', '5', '6', '7', '8', '9'][n]]
    else Decimal(n / 10) + Decimal(n % 10)
  }
}

/** The string operations of java.lang.String that the generator relies on,
    restricted to what the generator's inputs need: ASCII upper-casing,
    literal global replacement, lastIndexOf and split on '.'. */
module Text {

  predicate IsLower(c: char) { 'a' <= c <= 'z' }

  /** Upper-cases one ASCII letter; every other character is kept. */
  function UpperChar(c: char): (u: char)
    ensures !IsLower(u)
    ensures !IsLower(c) ==> u == c
  {
    if IsLower(c) then (c as int - 32) as char else c
  }

  /** `String.toUpperCase`, on the ASCII range: every lower-case letter becomes its
      capital, every other character is kept, and no lower-case letter is left. */
  function ToUpper(s: string): (r: string)
    ensures |r| == |s|
    ensures forall i :: 0 <= i < |s| && IsLower(s[i]) ==> r[i] as int == s[i] as int - 32
    ensures forall i :: 0 <= i < |s| && !IsLower(s[i]) ==> r[i] == s[i]
    ensures forall i :: 0 <= i < |r| ==> !IsLower(r[i])
  {
    seq(|s|, i requires 0 <= i < |s| => UpperChar(s[i]))
  }

  /** Upper-casing leaves no lower-case letter and is idempotent. */
  lemma ToUpperIdempotent(s: string)
    ensures forall i :: 0 <= i < |ToUpper(s)| ==> !IsLower(ToUpper(s)[i])
    ensures ToUpper(ToUpper(s)) == ToUpper(s)
  {
  }

  /** `tok` occurs in `s` starting at index `i`. */
  predicate MatchAt(s: string, tok: string, i: int)
  {
    0 <= i && i + |tok| <= |s| && s[i..i + |tok|] == tok
  }

  /** `s.replaceAll(tok, v)` for a pattern without regular-expression
      metacharacters and a replacement without `$` or `\`: the leftmost match
      is replaced, then scanning resumes after it. */
  function ReplaceAll(s: string, tok: string, v: string): string
    requires tok != []
    decreases |s|
  {
    if |s| < |tok| then s
    else if s[..|tok|] == tok then v + ReplaceAll(s[|tok|..], tok, v)
    else [s[0]] + ReplaceAll(s[1..], tok, v)
  }

  /** Replacing a token that does not occur changes nothing. */
  lemma {:induction false} ReplaceAbsent(s: string, tok: string, v: string)
    requires tok != []
    requires forall i :: 0 <= i <= |s| ==> !MatchAt(s, tok, i)
    ensures ReplaceAll(s, tok, v) == s
    decreases |s|
  {
    if |s| >= |tok| {
      assert !MatchAt(s, tok, 0);
      assert s[..|tok|] != tok;
      forall i | 0 <= i <= |s[1..]|
        ensures !MatchAt(s[1..], tok, i)
      {
        assert !MatchAt(s, tok, i + 1);
        if i + |tok| <= |s[1..]| {
          assert s[1..][i..i + |tok|] == s[i + 1..i + 1 + |tok|];
        }
      }
      ReplaceAbsent(s[1..], tok, v);
    }
  }

  /** When the first occurrence of `tok` in `a + tok + b` is the one after `a`,
      replacement turns it into `v` and continues with `b`. */
  lemma {:induction false} ReplaceFirst(a: string, b: string, tok: string, v: string)
    requires tok != []
    requires forall i :: 0 <= i < |a| ==> !MatchAt(a + tok + b, tok, i)
    ensures ReplaceAll(a + tok + b, tok, v) == a + v + ReplaceAll(b, tok, v)
    decreases |a|
  {
    var s := a + tok + b;
    if a == [] {
      assert s == tok + b;
      assert s[..|tok|] == tok;
      assert s[|tok|..] == b;
    } else {
      assert !MatchAt(s, tok, 0);
      assert s[..|tok|] != tok;
      assert s[1..] == a[1..] + tok + b;
      forall i | 0 <= i < |a[1..]|
        ensures !MatchAt(a[1..] + tok + b, tok, i)
      {
        assert !MatchAt(s, tok, i + 1);
        assert s[1..][i..i + |tok|] == s[i + 1..i + 1 + |tok|];
      }
      ReplaceFirst(a[1..], b, tok, v);
      assert [s[0]] + (a[1..] + v + ReplaceAll(b, tok, v)) == a + v + ReplaceAll(b, tok, v);
    }
  }

  /** `s.lastIndexOf(c)`: the greatest index holding `c`, or -1. */
  function LastIndexOf(s: string, c: char): (r: int)
    ensures -1 <= r < |s|
    ensures r >= 0 ==> s[r] == c
    ensures forall i :: r < i < |s| ==> s[i] != c
    ensures r == -1 <==> c !in s
    decreases |s|
  {
    if s == [] then -1
    else if s[|s| - 1] == c then |s| - 1
    else LastIndexOf(s[..|s| - 1], c)
  }

  /** The pieces between the dots of `s`, empty pieces included ("a..b" has three). */
  function Pieces(s: string): (r: seq<string>)
    ensures |r| >= 1
    ensures forall k :: 0 <= k < |r| ==> '.' !in r[k]
    decreases |s|
  {
    if s == [] then [""]
    else if s[0] == '.' then [""] + Pieces(s[1..])
    else
      var t := Pieces(s[1..]);
      [[s[0]] + t[0]] + t[1..]
  }

  /** The pieces joined back with dots. */
  function JoinDots(ps: seq<string>): string
    requires |ps| >= 1
    decreases |ps|
  {
    if |ps| == 1 then ps[0] else ps[0] + "." + JoinDots(ps[1..])
  }

  /** Splitting on '.' and joining with '.' gives back the string. */
  lemma {:induction false} JoinPieces(s: string)
    ensures JoinDots(Pieces(s)) == s
    decreases |s|
  {
    if s != [] {
      JoinPieces(s[1..]);
      var t := Pieces(s[1..]);
      if s[0] == '.' {
        assert Pieces(s)[1..] == t;
      } else if |t| == 1 {
        assert [s[0]] + t[0] == s;
      } else {
        assert Pieces(s)[1..] == t[1..];
        assert JoinDots(t) == t[0] + "." + JoinDots(t[1..]);
      }
    }
  }

  /** A dot-free prefix followed by a dot is the first piece. */
  lemma {:induction false} PiecesAfterDot(a: string, b: string)
    requires '.' !in a
    ensures Pieces(a + "." + b) == [a] + Pieces(b)
    decreases |a|
  {
    var s := a + "." + b;
    if a == [] {
      assert s == ['.'] + b && s[1..] == b;
    } else {
      assert s[1..] == a[1..] + "." + b;
      PiecesAfterDot(a[1..], b);
      assert [a[0]] + a[1..] == a;
    }
  }

  /** Pieces without dots, joined with dots, split back into themselves. */
  lemma {:induction false} SplitJoin(ps: seq<string>)
    requires |ps| >= 1
    requires forall k :: 0 <= k < |ps| ==> '.' !in ps[k]
    ensures Pieces(JoinDots(ps)) == ps
    decreases |ps|
  {
    if |ps| == 1 {
      PiecesNoDot(ps[0]);
    } else {
      SplitJoin(ps[1..]);
      PiecesAfterDot(ps[0], JoinDots(ps[1..]));
      assert ps == [ps[0]] + ps[1..];
    }
  }

  /** A string without a dot is a single piece. */
  lemma {:induction false} PiecesNoDot(s: string)
    requires '.' !in s
    ensures Pieces(s) == [s]
    decreases |s|
  {
    if s != [] {
      PiecesNoDot(s[1..]);
      assert [s[0]] + s[1..] == s;
    }
  }

  /** Removes the empty strings at the end, as `String.split` does with limit 0. */
  function DropTrailingEmpty(ps: seq<string>): (r: seq<string>)
    ensures |r| <= |ps| && r == ps[..|r|]
    ensures r == [] || r[|r| - 1] != ""
    ensures forall k :: |r| <= k < |ps| ==> ps[k] == ""
    decreases |ps|
  {
    if ps == [] || ps[|ps| - 1] != "" then ps else DropTrailingEmpty(ps[..|ps| - 1])
  }

  /** `s.split("\\.")`: a string without a dot gives itself (even ""), otherwise the
      pieces between the dots with the trailing empty ones removed. */
  function SplitDots(s: string): (r: seq<string>)
    ensures '.' !in s ==> r == [s]
    ensures forall k :: 0 <= k < |r| ==> '.' !in r[k]
  {
    if '.' !in s then [s] else DropTrailingEmpty(Pieces(s))
  }
}

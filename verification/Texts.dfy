/** String and list helpers of the permission code: what `trim`, `toLowerCase`,
    `split('.')[0]`, `endsWith('*')` and a filtered JSON array mean. */
module Texts {
  /** A JSON array element: only strings matter. */
  datatype Item = Text(s: string) | NotText

  function Elements<T>(xs: seq<T>): set<T> {
    set x | x in xs
  }

  lemma ElementsSnoc<T>(xs: seq<T>, x: T)
    ensures Elements(xs + [x]) == Elements(xs) + {x}
  {
  }

  lemma ElementsUpTo<T>(xs: seq<T>, n: nat)
    requires n < |xs|
    ensures Elements(xs[..n + 1]) == Elements(xs[..n]) + {xs[n]}
  {
  }

  predicate NoDuplicates<T(==)>(xs: seq<T>) {
    forall i, j :: 0 <= i < j < |xs| ==> xs[i] != xs[j]
  }

  /** White space and line terminators of ECMAScript. */
  predicate IsSpace(c: char) {
    var n := c as int;
    || 0x9 <= n <= 0xd
    || n in {0x20, 0xa0, 0x1680, 0x2028, 0x2029, 0x202f, 0x205f, 0x3000, 0xfeff}
    || 0x2000 <= n <= 0x200a
  }

  predicate Trimmed(s: string) {
    s == "" || (!IsSpace(s[0]) && !IsSpace(s[|s| - 1]))
  }

  function TrimStart(s: string): (r: string)
    ensures r == "" || !IsSpace(r[0])
    ensures r == "" || (s != "" && r[|r| - 1] == s[|s| - 1])
    ensures s == "" || !IsSpace(s[0]) ==> r == s
  {
    if s != "" && IsSpace(s[0]) then TrimStart(s[1..]) else s
  }

  function TrimEnd(s: string): (r: string)
    ensures r == "" || !IsSpace(r[|r| - 1])
    ensures s == "" || !IsSpace(s[|s| - 1]) ==> r == s
  {
    if s != "" && IsSpace(s[|s| - 1]) then TrimEnd(s[..|s| - 1]) else s
  }

  function Trim(s: string): (r: string)
    ensures Trimmed(r)
    ensures Trimmed(s) ==> r == s
  {
    TrimStart(TrimEnd(s))
  }

  predicate Blank(s: string) {
    forall i :: 0 <= i < |s| ==> IsSpace(s[i])
  }

  lemma {:induction false} TrimStartExactly(s: string)
    ensures var r := TrimStart(s); |r| <= |s| && r == s[|s| - |r|..] && Blank(s[..|s| - |r|])
  {
    if s != "" && IsSpace(s[0]) {
      var r := TrimStart(s[1..]);
      TrimStartExactly(s[1..]);
      assert s[..|s| - |r|] == [s[0]] + s[1..][..|s| - 1 - |r|];
    }
  }

  lemma {:induction false} TrimEndExactly(s: string)
    ensures var r := TrimEnd(s); r <= s && Blank(s[|r|..])
  {
    if s != "" && IsSpace(s[|s| - 1]) {
      var init := s[..|s| - 1];
      TrimEndExactly(init);
      assert s[|TrimEnd(init)|..] == init[|TrimEnd(init)|..] + [s[|s| - 1]];
    }
  }

  /** In ASCII: tab, line feed, vertical tab, form feed, carriage return and blank. */
  lemma SpacesExactly(c: char)
    requires c as int < 0x80
    ensures IsSpace(c) <==> c as int in {9, 10, 11, 12, 13, 32}
  {
  }

  /** Trimming takes white space off both ends, and nothing else. */
  lemma TrimExactly(s: string) returns (i: nat, j: nat)
    ensures i <= j <= |s| && Trim(s) == s[i..j] && Blank(s[..i]) && Blank(s[j..]) && Trimmed(Trim(s))
  {
    var t := TrimEnd(s);
    TrimEndExactly(s);
    TrimStartExactly(t);
    i, j := |t| - |TrimStart(t)|, |t|;
    assert s[..i] == t[..i];
  }

  /** Nothing is left of white space alone, and of nothing else. */
  lemma BlankExactly(s: string)
    ensures Trim(s) == "" <==> Blank(s)
  {
    var i, j := TrimExactly(s);
    if Trim(s) == "" {
      assert s == s[..i] + s[j..];
    } else {
      assert Trim(s)[0] == s[i] && !IsSpace(s[i]);
    }
  }

  /** ASCII lower case. */
  function LowerChar(c: char): char {
    if 'A' <= c <= 'Z' then c + ' ' else c
  }

  function Lower(s: string): (r: string)
    ensures |r| == |s|
    ensures Trimmed(s) ==> Trimmed(r)
    ensures forall i :: 0 <= i < |r| ==> LowerChar(r[i]) == r[i]
  {
    seq(|s|, i requires 0 <= i < |s| => LowerChar(s[i]))
  }

  /** ASCII capitals become the small letters 32 places on, all else stays. */
  lemma LowerExactly(s: string, i: nat)
    requires i < |s|
    ensures Lower(s)[i] as int == if 0x41 <= s[i] as int <= 0x5a then s[i] as int + 0x20 else s[i] as int
  {
  }

  lemma LowerTwice(s: string)
    ensures Lower(Lower(s)) == Lower(s)
  {
  }

  /** Everything before the first dot. */
  function Prefix(key: string): (r: string)
    ensures r <= key && '.' !in r
    ensures r == key || r + "." <= key
  {
    if key == "" || key[0] == '.' then ""
    else
      var rest := Prefix(key[1..]);
      assert key == [key[0]] + key[1..];
      [key[0]] + rest
  }

  /** A dotless text before a dot is the prefix. */
  lemma {:induction false} PrefixUnique(x: string, key: string)
    requires '.' !in x && x + "." <= key
    ensures Prefix(key) == x
  {
    if x == "" {
    } else {
      assert key[0] == x[0];
      assert x[1..] + "." == (x + ".")[1..] <= key[1..];
      PrefixUnique(x[1..], key[1..]);
    }
  }

  predicate EndsWithStar(p: string) {
    p != "" && p[|p| - 1] == '*'
  }
}

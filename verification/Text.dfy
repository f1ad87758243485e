/** ASCII string operations with the meaning of Go's `strings` package on ASCII input. */
module Text {
  import opened Base

  predicate IsSpace(c: char) {
    c == ' ' || '\t' <= c <= '\r'
  }

  predicate Blank(s: string) {
    forall i | 0 <= i < |s| :: IsSpace(s[i])
  }

  /** No white space at either end. */
  predicate Trimmed(s: string) {
    s == "" || (!IsSpace(s[0]) && !IsSpace(s[|s| - 1]))
  }

  function TrimLeft(s: string): string {
    if s != "" && IsSpace(s[0]) then TrimLeft(s[1..]) else s
  }

  function TrimRight(s: string): string {
    if s != "" && IsSpace(s[|s| - 1]) then TrimRight(s[..|s| - 1]) else s
  }

  function TrimSpace(s: string): string {
    TrimRight(TrimLeft(s))
  }

  function Upper(c: char): char {
    if 'a' <= c <= 'z' then c - 'a' + 'A' else c
  }

  function Lower(c: char): char {
    if 'A' <= c <= 'Z' then c - 'A' + 'a' else c
  }

  function ToUpper(s: string): string {
    seq(|s|, i requires 0 <= i < |s| => Upper(s[i]))
  }

  function ToLower(s: string): string {
    seq(|s|, i requires 0 <= i < |s| => Lower(s[i]))
  }

  predicate EqualFold(a: string, b: string) {
    ToLower(a) == ToLower(b)
  }

  /** The normal form under which CVE identifiers are stored and looked up. */
  function NormalizeId(s: string): string {
    ToUpper(TrimSpace(s))
  }

  /** The position of the first c, or |s| when there is none. */
  function IndexOf(s: string, c: char): (i: nat)
    ensures i <= |s|
    ensures i < |s| ==> s[i] == c
    ensures c !in s[..i]
  {
    if s == "" || s[0] == c then 0
    else
      var j := IndexOf(s[1..], c);
      assert s[..j + 1] == [s[0]] + s[1..][..j];
      j + 1
  }

  /** The text before and after the first c. */
  function Cut(s: string, c: char): Option<(string, string)> {
    var i := IndexOf(s, c);
    if i == |s| then None else Some((s[..i], s[i + 1..]))
  }

  function Split(s: string, c: char): (parts: seq<string>)
    ensures parts != []
  {
    var i := IndexOf(s, c);
    if i == |s| then [s] else [s[..i]] + Split(s[i + 1..], c)
  }

  /** Trimming removes exactly the blank ends: the trimmed text is a middle part of s
      between two blank parts, and has no blank end of its own. */
  lemma TrimSplits(s: string) returns (left: string, right: string)
    ensures Blank(left) && Blank(right) && Trimmed(TrimSpace(s))
    ensures s == left + TrimSpace(s) + right
  {
    left := TrimLeftSplits(s);
    right := TrimRightSplits(TrimLeft(s));
    var t := TrimLeft(s);
    assert s == left + (TrimSpace(s) + right);
    if TrimSpace(s) != "" {
      assert TrimSpace(s)[0] == t[0];
    }
  }

  lemma TrimLeftSplits(s: string) returns (left: string)
    ensures Blank(left) && s == left + TrimLeft(s)
    ensures TrimLeft(s) != "" ==> !IsSpace(TrimLeft(s)[0])
  {
    if s != "" && IsSpace(s[0]) {
      var rest := TrimLeftSplits(s[1..]);
      left := [s[0]] + rest;
      assert s == [s[0]] + s[1..];
    } else {
      left := "";
    }
  }

  lemma TrimRightSplits(s: string) returns (right: string)
    ensures Blank(right) && s == TrimRight(s) + right
    ensures TrimRight(s) != "" ==> !IsSpace(TrimRight(s)[|TrimRight(s)| - 1])
  {
    if s != "" && IsSpace(s[|s| - 1]) {
      var rest := TrimRightSplits(s[..|s| - 1]);
      right := rest + [s[|s| - 1]];
      assert s == s[..|s| - 1] + [s[|s| - 1]];
    } else {
      right := "";
    }
  }

  lemma BlankTrims(s: string)
    ensures Blank(s) <==> TrimSpace(s) == ""
  {
    var left, right := TrimSplits(s);
    if Blank(s) {
      TrimPadded(s, "", "");
      assert s + "" + "" == s;
    }
    if TrimSpace(s) == "" {
      assert s == left + right;
    }
  }

  /** Blank ends do not matter to trimming. */
  lemma {:induction false} TrimPadded(left: string, s: string, right: string)
    requires Blank(left) && Trimmed(s) && Blank(right)
    ensures TrimSpace(left + s + right) == s
  {
    TrimLeftPadded(left, s + right);
    assert left + s + right == left + (s + right);
    if s == "" {
      TrimLeftPadded(right, "");
      assert s + right == right + "";
    } else {
      TrimRightPadded(s, right);
    }
  }

  lemma TrimLeftPadded(left: string, s: string)
    requires Blank(left)
    ensures TrimLeft(left + s) == TrimLeft(s)
  {
    if left == "" {
      assert left + s == s;
    } else {
      assert (left + s)[1..] == left[1..] + s;
      TrimLeftPadded(left[1..], s);
    }
  }

  lemma TrimRightPadded(s: string, right: string)
    requires s != "" && !IsSpace(s[|s| - 1]) && Blank(right)
    ensures TrimRight(s + right) == s
  {
    if right == "" {
      assert s + right == s;
    } else {
      assert (s + right)[..|s + right| - 1] == s + right[..|right| - 1];
      TrimRightPadded(s, right[..|right| - 1]);
    }
  }

  /** Identifiers are normalized when stored and again at every lookup; the second time
      changes nothing. */
  lemma NormalizeIdempotent(s: string)
    ensures NormalizeId(NormalizeId(s)) == NormalizeId(s)
  {
    var left, right := TrimSplits(s);
    var n := NormalizeId(s);
    assert Trimmed(n) by {
      if n != "" {
        assert n[0] == Upper(TrimSpace(s)[0]) && n[|n| - 1] == Upper(TrimSpace(s)[|n| - 1]);
      }
    }
    assert TrimSpace(n) == n;
    assert ToUpper(n) == n;
  }

  /** Lookup ignores letter case and surrounding white space. */
  lemma NormalizeForgets(left: string, s: string, right: string)
    requires Blank(left) && Trimmed(s) && Blank(right)
    ensures NormalizeId(left + ToLower(s) + right) == NormalizeId(s)
  {
    var t := ToLower(s);
    assert Trimmed(t) by {
      if t != "" {
        assert t[0] == Lower(s[0]) && t[|t| - 1] == Lower(s[|t| - 1]);
      }
    }
    TrimPadded(left, t, right);
    TrimPadded("", s, "");
    assert "" + s + "" == s;
    assert ToUpper(t) == ToUpper(s);
  }

  // ----- What the case and space functions mean, character by character -----

  /** White space is the six ASCII white-space characters. */
  lemma SpacesAre(c: char)
    ensures IsSpace(c) <==> c in {' ', '\t', '\n', '\U{000B}', '\U{000C}', '\r'}
  {
  }

  predicate HasLowerCase(s: string) {
    exists i :: 0 <= i < |s| && 'a' <= s[i] <= 'z'
  }

  /** r is s with each lower-case letter replaced by the upper-case letter 32 places before it,
      and every other character kept. */
  predicate Uppercased(r: string, s: string) {
    |r| == |s| && forall i | 0 <= i < |s| :: r[i] as int == s[i] as int - if 'a' <= s[i] <= 'z' then 32 else 0
  }

  lemma UppercasedIs(r: string, s: string)
    ensures Uppercased(r, s) <==> r == ToUpper(s)
  {
    if Uppercased(r, s) {
      forall i | 0 <= i < |s|
        ensures r[i] == ToUpper(s)[i]
      {
      }
    }
  }

  /** The normal form is the text without its blank ends, upper-cased. */
  lemma NormalFormIs(s: string, r: string)
    ensures NormalizeId(s) == r <==> Uppercased(r, TrimSpace(s))
  {
    UppercasedIs(r, TrimSpace(s));
  }

  /** Exactly which identifiers are in normal form already. */
  lemma NormalExactly(s: string)
    ensures NormalizeId(s) == s <==> Trimmed(s) && !HasLowerCase(s)
  {
    NormalFormIs(s, s);
    var left, right := TrimSplits(s);
    if Trimmed(s) {
      TrimPadded("", s, "");
      assert "" + s + "" == s;
    } else {
      assert TrimSpace(s) != s;
    }
  }

  /** An identifier between blanks, in whatever letter case, is stored in upper case. */
  lemma NormalizePadded(left: string, core: string, right: string, r: string)
    requires Blank(left) && Trimmed(core) && Blank(right) && Uppercased(r, core)
    ensures NormalizeId(left + core + right) == r
  {
    TrimPadded(left, core, right);
    NormalFormIs(left + core + right, r);
  }

  /** s spells the word in any letter case, given in lower and in upper case. */
  predicate InAnyCase(s: string, lower: string, upper: string)
    requires |lower| == |upper|
  {
    |s| == |lower| && forall i | 0 <= i < |s| :: s[i] == lower[i] || s[i] == upper[i]
  }

  predicate LowerLetters(s: string) {
    forall i | 0 <= i < |s| :: 'a' <= s[i] <= 'z'
  }

  lemma LowersTo(s: string, lower: string, upper: string)
    requires LowerLetters(lower) && Uppercased(upper, lower)
    ensures ToLower(s) == lower <==> InAnyCase(s, lower, upper)
  {
    if InAnyCase(s, lower, upper) {
      forall i | 0 <= i < |s|
        ensures ToLower(s)[i] == lower[i]
      {
      }
    }
    if ToLower(s) == lower {
      forall i | 0 <= i < |s|
        ensures s[i] == lower[i] || s[i] == upper[i]
      {
        assert ToLower(s)[i] == Lower(s[i]);
      }
    }
  }

  /** Folding to a word of letters is spelling it in any letter case. */
  lemma FoldsTo(s: string, word: string, lower: string, upper: string)
    requires LowerLetters(lower) && Uppercased(upper, lower) && InAnyCase(word, lower, upper)
    ensures EqualFold(s, word) <==> InAnyCase(s, lower, upper)
  {
    LowersTo(s, lower, upper);
    LowersTo(word, lower, upper);
  }

  lemma {:induction false} IndexOfFirst(a: string, c: char, b: string)
    requires c !in a
    ensures IndexOf(a + [c] + b, c) == |a|
  {
    var s := a + [c] + b;
    if a != "" {
      assert s[1..] == a[1..] + [c] + b;
      IndexOfFirst(a[1..], c, b);
    }
  }

  lemma {:induction false} IndexOfNone(s: string, c: char)
    requires c !in s
    ensures IndexOf(s, c) == |s|
  {
    if s != "" {
      IndexOfNone(s[1..], c);
    }
  }

  lemma {:induction false} IndexOfPrefix(a: string, c: char, b: string)
    requires c in a
    ensures IndexOf(a + b, c) == IndexOf(a, c) < |a|
  {
    if a[0] != c {
      assert (a + b)[1..] == a[1..] + b;
      IndexOfPrefix(a[1..], c, b);
    }
  }

  lemma CutJoin(a: string, b: string, k: nat)
    requires k <= |a|
    ensures (a + b)[..k] == a[..k] && (a + b)[k..] == a[k..] + b
  {
  }

  lemma AroundFirst(a: string, c: char, b: string) returns (x: string, y: string)
    requires c in a
    ensures c !in x && |y| < |a| && a == x + [c] + y && a + [c] + b == x + [c] + (y + [c] + b)
  {
    var i := IndexOf(a, c);
    x, y := a[..i], a[i + 1..];
    assert a == x + [c] + y;
  }

  lemma SplitOne(x: string, c: char, rest: string, p: seq<string>, q: seq<string>)
    requires c !in x && Split(rest, c) == p + q
    ensures Split(x + [c] + rest, c) == [x] + p + q
  {
    SplitFirst(x, c, rest);
    assert [x] + (p + q) == [x] + p + q;
  }

  /** Splitting a joined text splits its two parts. */
  lemma {:induction false} SplitJoin(a: string, c: char, b: string)
    ensures Split(a + [c] + b, c) == Split(a, c) + Split(b, c)
    decreases |a|
  {
    if c in a {
      var x, y := AroundFirst(a, c, b);
      SplitJoin(y, c, b);
      SplitOne(x, c, y + [c] + b, Split(y, c), Split(b, c));
      SplitFirst(x, c, y);
    } else {
      SplitFirst(a, c, b);
      SplitNone(a, c);
    }
  }

  lemma CutFirst(a: string, c: char, b: string)
    requires c !in a
    ensures Cut(a + [c] + b, c) == Some((a, b))
  {
    IndexOfFirst(a, c, b);
    var s := a + [c] + b;
    assert s[..|a|] == a && s[|a| + 1..] == b;
  }

  lemma SplitFirst(a: string, c: char, b: string)
    requires c !in a
    ensures Split(a + [c] + b, c) == [a] + Split(b, c)
  {
    IndexOfFirst(a, c, b);
    var s := a + [c] + b;
    assert s[..|a|] == a && s[|a| + 1..] == b;
  }

  lemma SplitNone(s: string, c: char)
    requires c !in s
    ensures Split(s, c) == [s]
  {
    IndexOfNone(s, c);
  }
}

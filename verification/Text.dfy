/** The functions of Go's `strings` package the models share. */
module Text {

  function LowerChar(c: char): char {
    if 'A' <= c <= 'Z' then (c as int - 'A' as int + 'a' as int) as char else c
  }

  /** `strings.ToLower`, on the ASCII letters. */
  function ToLower(s: string): (r: string)
    ensures |r| == |s|
    ensures forall i :: 0 <= i < |s| ==> r[i] == LowerChar(s[i])
  {
    seq(|s|, i requires 0 <= i < |s| => LowerChar(s[i]))
  }

  /** `unicode.IsSpace` */
  predicate IsSpace(c: char) {
    || '\U{0009}' <= c <= '\U{000d}' || c == ' ' || c == '\U{0085}' || c == '\U{00a0}'
    || c == '\U{1680}' || '\U{2000}' <= c <= '\U{200a}' || c == '\U{2028}' || c == '\U{2029}'
    || c == '\U{202f}' || c == '\U{205f}' || c == '\U{3000}'
  }

  predicate Blank(s: string) {
    forall c :: c in s ==> IsSpace(c)
  }

  function TrimLeft(s: string): string {
    if s != [] && IsSpace(s[0]) then TrimLeft(s[1..]) else s
  }

  function TrimRight(s: string): string {
    if s != [] && IsSpace(s[|s| - 1]) then TrimRight(s[..|s| - 1]) else s
  }

  function TrimSpace(s: string): string {
    TrimRight(TrimLeft(s))
  }

  /** Empty, or with no space at either end. */
  predicate Trimmed(s: string) {
    s == [] || (!IsSpace(s[0]) && !IsSpace(s[|s| - 1]))
  }

  /** `strings.Cut` around the first `c`. */
  function Cut(s: string, c: char): (r: (string, string, bool))
    ensures r.2 ==> s == r.0 + [c] + r.1 && c !in r.0
    ensures !r.2 ==> c !in s && r.0 == s
  {
    if s == [] then ("", "", false)
    else if s[0] == c then ("", s[1..], true)
    else
      var (before, after, found) := Cut(s[1..], c);
      ([s[0]] + before, after, found)
  }

  /** `strings.Split` at every `c`. */
  function Split(s: string, c: char): (r: seq<string>)
    ensures |r| > 0
    ensures forall i :: 0 <= i < |r| ==> c !in r[i]
    decreases |s|
  {
    var (before, after, found) := Cut(s, c);
    if found then [before] + Split(after, c) else [s]
  }

  function Join(parts: seq<string>, sep: string): string {
    if parts == [] then ""
    else if |parts| == 1 then parts[0]
    else Join(parts[..|parts| - 1], sep) + sep + parts[|parts| - 1]
  }

  // ----- Trimming

  lemma {:induction false} TrimLeftDropsBlanks(s: string) returns (l: string)
    ensures Blank(l) && s == l + TrimLeft(s)
    ensures TrimLeft(s) == [] || !IsSpace(TrimLeft(s)[0])
  {
    hide IsSpace;
    if s != [] && IsSpace(s[0]) {
      l := TrimLeftDropsBlanks(s[1..]);
      l := [s[0]] + l;
    } else {
      l := "";
    }
  }

  lemma {:induction false} TrimRightDropsBlanks(s: string) returns (r: string)
    ensures Blank(r) && s == TrimRight(s) + r
    ensures TrimRight(s) == [] || !IsSpace(TrimRight(s)[|TrimRight(s)| - 1])
  {
    hide IsSpace;
    if s != [] && IsSpace(s[|s| - 1]) {
      r := TrimRightDropsBlanks(s[..|s| - 1]);
      r := r + [s[|s| - 1]];
    } else {
      r := "";
    }
  }

  /** What TrimSpace removes is blank, and what it leaves is trimmed. */
  lemma TrimSpaceSplits(s: string) returns (l: string, r: string)
    ensures Blank(l) && Blank(r) && Trimmed(TrimSpace(s))
    ensures s == l + TrimSpace(s) + r
  {
    hide IsSpace;
    l := TrimLeftDropsBlanks(s);
    r := TrimRightDropsBlanks(TrimLeft(s));
  }

  lemma {:induction false} TrimRightKeeps(m: string, r: string)
    requires Blank(r) && (m == [] || !IsSpace(m[|m| - 1]))
    ensures TrimRight(m + r) == m
  {
    if r == [] {
      assert m + r == m;
    } else {
      var n := |r| - 1;
      assert r[n] in r;
      assert (m + r)[..|m + r| - 1] == m + r[..n];
      TrimRightKeeps(m, r[..n]);
    }
  }

  lemma {:induction false} TrimLeftKeeps(l: string, m: string)
    requires Blank(l) && (m == [] || !IsSpace(m[0]))
    ensures TrimLeft(l + m) == m
  {
    if l == [] {
      assert l + m == m;
    } else {
      assert l[0] in l;
      assert (l + m)[1..] == l[1..] + m;
      TrimLeftKeeps(l[1..], m);
    }
  }

  /** TrimSpace finds the trimmed middle of any blank-trimmed-blank string. */
  lemma TrimSpaceFinds(l: string, m: string, r: string)
    requires Blank(l) && Blank(r) && Trimmed(m)
    ensures TrimSpace(l + m + r) == m
  {
    if m == [] {
      assert l + m + r == (l + r) + [];
      TrimLeftKeeps(l + r, []);
    } else {
      assert l + m + r == l + (m + r);
      TrimLeftKeeps(l, m + r);
      TrimRightKeeps(m, r);
    }
  }

  /** Blanks around a string do not change what is left of it. */
  lemma TrimSpaceIgnoresBlanks(l: string, s: string, r: string)
    requires Blank(l) && Blank(r)
    ensures TrimSpace(l + s + r) == TrimSpace(s)
  {
    var l', r' := TrimSpaceSplits(s);
    TrimSpaceFinds(l + l', TrimSpace(s), r' + r);
    assert (l + l') + TrimSpace(s) + (r' + r) == l + s + r;
  }

  lemma TrimSpaceOfTrimmed(s: string)
    requires Trimmed(s)
    ensures TrimSpace(s) == s
  {
    TrimSpaceFinds("", s, "");
    assert "" + s + "" == s;
  }

  /** Only spaces are lost. */
  lemma TrimSpaceKeepsChar(s: string, c: char)
    requires !IsSpace(c)
    ensures c in TrimSpace(s) <==> c in s
  {
    var l, r := TrimSpaceSplits(s);
  }

  // ----- Cutting and splitting

  lemma {:induction false} CutFinds(before: string, c: char, after: string)
    requires c !in before
    ensures Cut(before + [c] + after, c) == (before, after, true)
  {
    var s := before + [c] + after;
    if before == [] {
      assert s[1..] == after;
    } else {
      assert s[1..] == before[1..] + [c] + after;
      assert before[0] in before && [before[0]] + before[1..] == before;
      CutFinds(before[1..], c, after);
    }
  }

  lemma {:induction false} SplitSnoc(s: string, c: char, t: string)
    requires c !in t
    ensures Split(s + [c] + t, c) == Split(s, c) + [t]
    decreases |s|
  {
    var (before, after, found) := Cut(s, c);
    if found {
      assert s + [c] + t == before + [c] + (after + [c] + t);
      CutFinds(before, c, after + [c] + t);
      SplitSnoc(after, c, t);
    } else {
      CutFinds(s, c, t);
    }
  }

  lemma {:induction false} SplitExtendsLast(s: string, c: char, t: string)
    requires c !in t
    ensures var ps := Split(s, c);
      Split(s + t, c) == ps[..|ps| - 1] + [ps[|ps| - 1] + t]
    decreases |s|
  {
    var (before, after, found) := Cut(s, c);
    if found {
      assert s + t == before + [c] + (after + t);
      CutFinds(before, c, after + t);
      SplitExtendsLast(after, c, t);
    } else {
      assert c !in s + t;
    }
  }

  // ----- Keys of two parts

  /** The key under which rules keep what they know about a check. */
  function PairKey(first: string, second: string): string {
    first + ":" + second
  }

  predicate ColonFree(s: string) {
    ':' !in s
  }

  /** Keys with colon-free first parts stand for one pair. */
  lemma KeysAreInjective(r1: string, c1: string, r2: string, c2: string)
    requires ColonFree(r1) && ColonFree(r2)
    ensures PairKey(r1, c1) == PairKey(r2, c2) <==> r1 == r2 && c1 == c2
  {
    if PairKey(r1, c1) == PairKey(r2, c2) {
      var k := PairKey(r1, c1);
      assert forall i :: 0 <= i < |r1| ==> k[i] == r1[i];
      assert forall i :: 0 <= i < |r2| ==> k[i] == r2[i];
      assert k[|r1|] == ':' && k[|r2|] == ':';
      assert |r1| == |r2|;
      assert r1 == k[..|r1|] && r2 == k[..|r2|];
      assert c1 == k[|r1| + 1..] && c2 == k[|r2| + 1..];
    }
  }
}

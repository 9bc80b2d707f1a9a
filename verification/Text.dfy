// The parts of Go's strings package that the store uses.
module Text {
  // unicode.IsSpace.
  predicate IsSpace(c: char) {
    var u := c as int;
    || 9 <= u <= 13
    || u in {0x20, 0x85, 0xA0, 0x1680}
    || 0x2000 <= u <= 0x200A
    || u in {0x2028, 0x2029, 0x202F, 0x205F, 0x3000}
  }

  // What a trim removes: white space, or the characters of a cutset string.
  datatype Cutset = Whitespace | Chars(cs: string) {
    predicate Has(c: char) { if Whitespace? then IsSpace(c) else c in cs }
  }

  // strings.ToUpper on ASCII text.
  function UpperChar(c: char): char {
    if 'a' <= c <= 'z' then c - 'a' + 'A' else c
  }

  function ToUpper(s: string): (u: string)
    ensures |u| == |s|
  {
    if s == "" then "" else [UpperChar(s[0])] + ToUpper(s[1..])
  }

  predicate Occurs(s: string, pat: string, i: int) {
    0 <= i <= i + |pat| <= |s| && s[i..i + |pat|] == pat
  }

  // strings.Index: the first place where pat occurs, or -1.
  function Index(s: string, pat: string): (r: int)
    ensures r == -1 || 0 <= r <= |s| - |pat|
    ensures r == -1 || Occurs(s, pat, r)
  {
    IndexFrom(s, pat, 0)
  }

  function IndexFrom(s: string, pat: string, from: nat): (r: int)
    requires from <= |s|
    ensures r == -1 || (from <= r && Occurs(s, pat, r))
    decreases |s| - from
  {
    if Occurs(s, pat, from) then from
    else if from == |s| then -1
    else IndexFrom(s, pat, from + 1)
  }

  predicate Contains(s: string, pat: string) { Index(s, pat) >= 0 }

  function TrimLeft(s: string, cut: Cutset): (t: string)
    ensures |t| <= |s|
  {
    if s != "" && cut.Has(s[0]) then TrimLeft(s[1..], cut) else s
  }

  function TrimRight(s: string, cut: Cutset): (t: string)
    ensures |t| <= |s|
  {
    if s != "" && cut.Has(s[|s| - 1]) then TrimRight(s[..|s| - 1], cut) else s
  }

  function TrimSpace(s: string): (t: string)
    ensures |t| <= |s|
  {
    TrimRight(TrimLeft(s, Whitespace), Whitespace)
  }

  predicate Trimmed(s: string) {
    s == "" || (!IsSpace(s[0]) && !IsSpace(s[|s| - 1]))
  }

  predicate AllIn(s: string, cut: Cutset) { forall i :: 0 <= i < |s| ==> cut.Has(s[i]) }

  // strings.Split on a single character.
  function SplitOn(s: string, sep: char): (parts: seq<string>)
    ensures |parts| >= 1
  {
    if s == "" then [""]
    else
      var rest := SplitOn(s[1..], sep);
      if s[0] == sep then [""] + rest else [[s[0]] + rest[0]] + rest[1..]
  }

  function Flatten(parts: seq<string>): string {
    if parts == [] then "" else parts[0] + Flatten(parts[1..])
  }

  lemma {:induction false} ConcatAssoc<T>(a: seq<T>, b: seq<T>, c: seq<T>)
    ensures (a + b) + c == a + (b + c)
  {
  }

  lemma {:induction false} SliceOfSuffix<T>(s: seq<T>, lo: nat, n: nat)
    requires lo + n <= |s|
    ensures s[lo..][..n] == s[lo..lo + n] && s[lo..][n..] == s[lo + n..]
  {
  }

  lemma {:induction false} SliceShift<T>(s: seq<T>, lo: nat, n: nat)
    requires 1 + lo + n <= |s|
    ensures s[1..][lo..lo + n] == s[lo + 1..lo + 1 + n]
  {
  }

  // ---- Upper case ----

  lemma {:induction false} ToUpperConcat(a: string, b: string)
    ensures ToUpper(a + b) == ToUpper(a) + ToUpper(b)
  {
    if a == "" {
      assert a + b == b;
    } else {
      assert (a + b)[1..] == a[1..] + b;
      ToUpperConcat(a[1..], b);
    }
  }

  lemma {:induction false} ToUpperTake(s: string, hi: nat)
    requires hi <= |s|
    ensures ToUpper(s[..hi]) == ToUpper(s)[..hi]
  {
    hide ToUpper;
    ToUpperConcat(s[..hi], s[hi..]);
    assert s[..hi] + s[hi..] == s;
  }

  lemma {:induction false} ToUpperDrop(s: string, lo: nat)
    requires lo <= |s|
    ensures ToUpper(s[lo..]) == ToUpper(s)[lo..]
  {
    hide ToUpper;
    ToUpperConcat(s[..lo], s[lo..]);
    assert s[..lo] + s[lo..] == s;
  }

  lemma {:induction false} ToUpperSlice(s: string, lo: nat, hi: nat)
    requires lo <= hi <= |s|
    ensures ToUpper(s[lo..hi]) == ToUpper(s)[lo..hi]
  {
    hide ToUpper;
    ToUpperTake(s, hi);
    ToUpperDrop(s[..hi], lo);
    assert s[..hi][lo..] == s[lo..hi];
  }

  // Letter by letter: a to z, codes 97 to 122, become A to Z; everything else stays.
  lemma {:induction false} ToUpperAt(s: string, i: nat)
    requires i < |s|
    ensures ToUpper(s)[i] == UpperChar(s[i])
    ensures var c, u := s[i] as int, ToUpper(s)[i] as int; u == if 97 <= c <= 122 then c - 32 else c
  {
    ToUpperSlice(s, i, i + 1);
    assert s[i..i + 1] == [s[i]];
    assert ToUpper([s[i]]) == [UpperChar(s[i])];
  }

  // ---- Searching ----

  lemma {:induction false} IndexFromFirst(s: string, pat: string, from: nat)
    requires from <= |s|
    ensures forall i :: from <= i < (if IndexFrom(s, pat, from) == -1 then |s| + 1 else IndexFrom(s, pat, from))
                        ==> !Occurs(s, pat, i)
    decreases |s| - from
  {
    if !Occurs(s, pat, from) && from < |s| {
      IndexFromFirst(s, pat, from + 1);
    }
  }

  lemma {:induction false} IndexFirst(s: string, pat: string)
    ensures forall i :: Index(s, pat) == -1 || i < Index(s, pat) ==> !Occurs(s, pat, i)
  {
    IndexFromFirst(s, pat, 0);
  }

  // The first occurrence is unique.
  lemma {:induction false} IndexIs(s: string, pat: string, r: nat)
    requires Occurs(s, pat, r) && forall i :: 0 <= i < r ==> !Occurs(s, pat, i)
    ensures Index(s, pat) == r
  {
    IndexFirst(s, pat);
  }

  lemma {:induction false} OccursInSlice(s: string, pat: string, lo: nat, hi: nat, i: nat)
    requires lo <= hi <= |s| && i + |pat| <= hi - lo
    ensures Occurs(s[lo..hi], pat, i) <==> Occurs(s, pat, lo + i)
  {
    var a, b := s[lo..hi][i..i + |pat|], s[lo + i..lo + i + |pat|];
    assert |a| == |b| && forall k :: 0 <= k < |a| ==> a[k] == b[k];
    assert a == b;
  }

  lemma {:induction false} OccursInSuffix(s: string, pat: string, lo: nat)
    requires lo <= |s| && Occurs(s, pat, lo)
    ensures Occurs(s[lo..], pat, 0)
  {
    assert s[lo..|s|] == s[lo..];
    OccursInSlice(s, pat, lo, |s|, 0);
  }

  lemma {:induction false} AbsentFromSlice(s: string, pat: string, lo: nat, hi: nat)
    requires lo <= hi <= |s| && !Contains(s, pat)
    ensures !Contains(s[lo..hi], pat)
  {
    var r := Index(s[lo..hi], pat);
    if r >= 0 {
      IndexFirst(s, pat);
      OccursInSlice(s, pat, lo, hi, r);
    }
  }

  // A prefix long enough to hold the first occurrence has it at the same place.
  lemma {:induction false} IndexInPrefix(s: string, pat: string, hi: nat)
    requires hi <= |s| && 0 <= Index(s, pat) && Index(s, pat) + |pat| <= hi
    ensures Index(s[..hi], pat) == Index(s, pat)
  {
    var r := Index(s, pat);
    IndexFirst(s, pat);
    OccursInSlice(s, pat, 0, hi, r);
    forall i: nat | i < r
      ensures !Occurs(s[..hi], pat, i)
    {
      OccursInSlice(s, pat, 0, hi, i);
    }
    IndexIs(s[..hi], pat, r);
  }

  lemma {:induction false} IndexOfPrefix(s: string, pat: string, hi: nat)
    requires hi <= |s| && Contains(s[..hi], pat)
    ensures Index(s, pat) == Index(s[..hi], pat)
  {
    var r := Index(s[..hi], pat);
    IndexFirst(s[..hi], pat);
    OccursInSlice(s, pat, 0, hi, r);
    forall i: nat | i < r
      ensures !Occurs(s, pat, i)
    {
      OccursInSlice(s, pat, 0, hi, i);
    }
    IndexIs(s, pat, r);
  }

  // Text before the first occurrence does not contain the pattern.
  lemma {:induction false} AbsentBefore(s: string, pat: string, hi: nat)
    requires hi <= |s| && pat != "" && 0 <= Index(s, pat) && hi <= Index(s, pat)
    ensures !Contains(s[..hi], pat)
  {
    if Contains(s[..hi], pat) {
      IndexOfPrefix(s, pat, hi);
    }
  }

  lemma {:induction false} CannotStraddle(a: string, sep: string, b: string, pat: string, i: nat)
    requires sep != "" && pat != "" && forall i, j :: 0 <= i < |sep| && 0 <= j < |pat| ==> sep[i] != pat[j]
    requires |a| < i + |pat| && i < |a| + |sep|
    ensures !Occurs(a + sep + b, pat, i)
  {
    var s := a + sep + b;
    var k := if i <= |a| then |a| else i;
    if i + |pat| <= |s| {
      assert s[i..i + |pat|][k - i] == s[k] == sep[k - |a|] != pat[k - i];
    }
  }

  // A pattern that avoids the characters of a separator cannot straddle it.
  lemma {:induction false} IndexAcross(a: string, sep: string, b: string, pat: string)
    requires sep != "" && pat != "" && forall i, j :: 0 <= i < |sep| && 0 <= j < |pat| ==> sep[i] != pat[j]
    requires !Contains(a, pat)
    ensures Index(a + sep + b, pat) == if Contains(b, pat) then |a| + |sep| + Index(b, pat) else -1
  {
    var s := a + sep + b;
    var n := |a| + |sep|;
    assert s[..|a|] == a && s[n..] == b;
    IndexFirst(a, pat);
    IndexFirst(b, pat);
    forall i: nat
      ensures Occurs(s, pat, i) <==> n <= i && Occurs(b, pat, i - n)
    {
      if i + |pat| <= |a| {
        OccursInSlice(s, pat, 0, |a|, i);
      } else if i < n {
        CannotStraddle(a, sep, b, pat, i);
      } else if i + |pat| <= |s| {
        OccursInSlice(s, pat, n, |s|, i - n);
        assert s[n..|s|] == b;
      }
    }
    if Contains(b, pat) {
      IndexIs(s, pat, n + Index(b, pat));
    }
  }

  // ---- Trimming ----

  // What a trim removes.
  lemma {:induction false} TrimLeftCuts(s: string, cut: Cutset) returns (left: string)
    ensures var t := TrimLeft(s, cut);
            s == left + t && AllIn(left, cut) && (t == "" || !cut.Has(t[0]))
    ensures s != "" && !cut.Has(s[0]) ==> left == ""
  {
    if s != "" && cut.Has(s[0]) {
      var rest := TrimLeftCuts(s[1..], cut);
      left := [s[0]] + rest;
    } else {
      left := "";
    }
  }

  lemma {:induction false} TrimRightCuts(s: string, cut: Cutset) returns (right: string)
    ensures var t := TrimRight(s, cut);
            s == t + right && AllIn(right, cut) && (t == "" || !cut.Has(t[|t| - 1]))
  {
    if s != "" && cut.Has(s[|s| - 1]) {
      var rest := TrimRightCuts(s[..|s| - 1], cut);
      right := rest + [s[|s| - 1]];
    } else {
      right := "";
    }
  }

  // What TrimSpace removes on the left, keeps, and removes on the right.
  lemma {:induction false} TrimSpaceParts(s: string) returns (left: string, right: string)
    ensures s == left + TrimSpace(s) + right
    ensures AllIn(left, Whitespace) && AllIn(right, Whitespace)
    ensures Trimmed(TrimSpace(s))
    ensures s != "" && !IsSpace(s[0]) ==> left == ""
  {
    hide TrimLeft, TrimRight, IsSpace, AllIn;
    left := TrimLeftCuts(s, Whitespace);
    var t := TrimLeft(s, Whitespace);
    right := TrimRightCuts(t, Whitespace);
    var u := TrimRight(t, Whitespace);
    ConcatAssoc(left, u, right);
    if u != "" {
      assert t[0] == u[0];
    }
  }

  lemma {:induction false} TrimmedFixed(s: string)
    requires Trimmed(s)
    ensures TrimSpace(s) == s
  {
  }

  lemma {:induction false} TrimLeadingSpace(c: char, s: string)
    requires IsSpace(c)
    ensures TrimSpace([c] + s) == TrimSpace(s)
  {
    assert ([c] + s)[1..] == s;
  }

  // ---- Splitting ----

  lemma {:induction false} SplitOnAbsent(s: string, sep: char)
    requires sep !in s
    ensures SplitOn(s, sep) == [s]
  {
    if s != "" {
      assert s[0] in s && forall c :: c in s[1..] ==> c in s;
      SplitOnAbsent(s[1..], sep);
      assert [s[0]] + s[1..] == s;
    }
  }

  lemma {:induction false} SplitOnFirst(a: string, sep: char, b: string)
    requires sep !in a
    ensures SplitOn(a + [sep] + b, sep) == [a] + SplitOn(b, sep)
  {
    var s := a + [sep] + b;
    if a == "" {
      assert s[1..] == b;
    } else {
      assert s[1..] == a[1..] + [sep] + b;
      assert a[0] in a && forall c :: c in a[1..] ==> c in a;
      SplitOnFirst(a[1..], sep, b);
      assert [a[0]] + a[1..] == a;
    }
  }

  lemma {:induction false} FlattenConcat(a: seq<string>, b: seq<string>)
    ensures Flatten(a + b) == Flatten(a) + Flatten(b)
  {
    if a == [] {
      assert a + b == b;
    } else {
      assert (a + b)[1..] == a[1..] + b;
      FlattenConcat(a[1..], b);
    }
  }
}

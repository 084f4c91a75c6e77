/** Name helpers of the C++ code generator: `toFileName`, `upperFirst`, `lowerFirst`. */
module Names {

  predicate IsUpper(c: char) { 'A' <= c <= 'Z' }

  predicate IsLower(c: char) { 'a' <= c <= 'z' }

  /** `c + 32` on an ASCII capital. */
  function ToLowerChar(c: char): (r: char)
    requires IsUpper(c)
    ensures IsLower(r)
  {
    (c as int + 32) as char
  }

  /** `c - 32` on an ASCII small letter. */
  function ToUpperChar(c: char): (r: char)
    requires IsLower(c)
    ensures IsUpper(r)
  {
    (c as int - 32) as char
  }

  /** A character as it appears in a file name: capitals lowered, the rest kept. */
  function FileChar(c: char): char
  {
    if IsUpper(c) then ToLowerChar(c) else c
  }

  predicate NoUpper(s: string)
  {
    forall k :: 0 <= k < |s| ==> !IsUpper(s[k])
  }

  /** What the loop of `toFileName` writes for the character `c` at index `i`. */
  function Piece(c: char, i: nat): string
  {
    if IsUpper(c) then (if i > 0 then "_" else "") + [ToLowerChar(c)] else [c]
  }

  /** The file name `toFileName` builds from a class name, one character at a time. */
  function FileNameOf(s: string): string
  {
    if s == [] then [] else FileNameOf(s[..|s| - 1]) + Piece(s[|s| - 1], |s| - 1)
  }

  /** Number of capitals at indices above zero: each one gains a `_`. */
  function InnerCapitals(s: string): nat
  {
    if |s| <= 1 then 0
    else InnerCapitals(s[..|s| - 1]) + (if IsUpper(s[|s| - 1]) then 1 else 0)
  }

  /** `toFileName`: copies each character, lowering a capital and putting `_`
      before it unless it is the first character. */
  method ToFileName(className: string) returns (r: string)
    ensures r == FileNameOf(className)
  {
    r := "";
    var i := 0;
    while i < |className|
      invariant 0 <= i <= |className|
      invariant r == FileNameOf(className[..i])
    {
      assert className[..i + 1][..i] == className[..i];
      if IsUpper(className[i]) {
        if i > 0 {
          r := r + "_";
        }
        r := r + [ToLowerChar(className[i])];
      } else {
        r := r + [className[i]];
      }
      i := i + 1;
    }
    assert className[..i] == className;
  }

  lemma FileNameSnoc(s: string, c: char)
    ensures FileNameOf(s + [c]) == FileNameOf(s) + Piece(c, |s|)
  {
    assert (s + [c])[..|s|] == s;
  }

  /** The file name is one character longer than the class name per inner capital. */
  lemma {:induction false} FileNameLength(s: string)
    ensures |FileNameOf(s)| == |s| + InnerCapitals(s)
  {
    if s != [] {
      FileNameLength(s[..|s| - 1]);
    }
  }

  /** A file name never holds a capital. */
  lemma {:induction false} FileNameNoUpper(s: string)
    ensures NoUpper(FileNameOf(s))
  {
    if s != [] {
      FileNameNoUpper(s[..|s| - 1]);
      var p := FileNameOf(s[..|s| - 1]);
      var q := Piece(s[|s| - 1], |s| - 1);
      assert FileNameOf(s) == p + q;
      forall k | 0 <= k < |p + q|
        ensures !IsUpper((p + q)[k])
      {
        if k >= |p| {
          assert (p + q)[k] == q[k - |p|];
        }
      }
    }
  }

  /** Where the character at index `i` lands: after `i` characters and the `_`s
      inserted before capitals up to and including index `i`. There it is
      `FileChar(s[i])`, and a capital other than the first is preceded by `_`. */
  lemma {:induction false} FileNameCharAt(s: string, i: nat)
    requires i < |s|
    ensures i + InnerCapitals(s[..i + 1]) < |FileNameOf(s)|
    ensures FileNameOf(s)[i + InnerCapitals(s[..i + 1])] == FileChar(s[i])
    ensures i > 0 && IsUpper(s[i]) ==> FileNameOf(s)[i + InnerCapitals(s[..i + 1]) - 1] == '_'
  {
    var n := |s| - 1;
    var init := s[..n];
    var head, piece := FileNameOf(init), Piece(s[n], n);
    assert FileNameOf(s) == head + piece;
    FileNameLength(init);
    if i == n {
      assert s[..i + 1] == s;
      FileNameLength(s);
      assert i + InnerCapitals(s) == |head + piece| - 1;
      assert (head + piece)[|head + piece| - 1] == piece[|piece| - 1];
      if i > 0 && IsUpper(s[i]) {
        assert (head + piece)[|head + piece| - 2] == piece[0];
      }
    } else {
      FileNameCharAt(init, i);
      assert init[..i + 1] == s[..i + 1];
      var p := i + InnerCapitals(s[..i + 1]);
      assert (head + piece)[p] == head[p];
      if i > 0 && IsUpper(s[i]) {
        assert (head + piece)[p - 1] == head[p - 1];
      }
    }
  }

  /** A name without capitals is its own file name, so `toFileName` is idempotent. */
  lemma {:induction false} FileNameOfPlain(s: string)
    requires NoUpper(s)
    ensures FileNameOf(s) == s
  {
    if s != [] {
      var n := |s| - 1;
      NoUpperInit(s);
      FileNameOfPlain(s[..n]);
      SplitLast([], s);
      FileNameSnoc(s[..n], s[n]);
    }
  }

  lemma FileNameIdempotent(s: string)
    ensures FileNameOf(FileNameOf(s)) == FileNameOf(s)
  {
    FileNameNoUpper(s);
    FileNameOfPlain(FileNameOf(s));
  }

  /** Dropping the last character of capital-free text leaves it capital-free. */
  lemma NoUpperInit(w: string)
    requires NoUpper(w) && w != []
    ensures NoUpper(w[..|w| - 1]) && !IsUpper(w[|w| - 1])
  {
    var u := w[..|w| - 1];
    forall k | 0 <= k < |u| ensures !IsUpper(u[k]) { assert u[k] == w[k]; }
  }

  lemma SplitLast(a: string, w: string)
    requires w != []
    ensures w == w[..|w| - 1] + [w[|w| - 1]]
    ensures a + w == (a + w[..|w| - 1]) + [w[|w| - 1]]
  {
  }

  /** Appending capital-free text to a name appends it unchanged to the file name. */
  lemma {:induction false} FileNameAppendPlain(a: string, w: string)
    requires NoUpper(w)
    ensures FileNameOf(a + w) == FileNameOf(a) + w
  {
    if w == [] {
      assert a + w == a;
    } else {
      var n := |w| - 1;
      NoUpperInit(w);
      FileNameAppendPlain(a, w[..n]);
      SplitLast(a, w);
      FileNameSnoc(a + w[..n], w[n]);
    }
  }

  /** The file name of a class name ending in a capitalised suffix such as
      `Component`: the stem's file name, `_` when the stem is not empty, then the
      suffix in lower case. */
  lemma FileNameWithSuffix(stem: string, suffix: string)
    requires |suffix| > 0 && IsUpper(suffix[0]) && NoUpper(suffix[1..])
    ensures FileNameOf(stem + suffix)
      == (if stem == [] then "" else FileNameOf(stem) + "_") + [ToLowerChar(suffix[0])] + suffix[1..]
  {
    assert stem + suffix == (stem + [suffix[0]]) + suffix[1..];
    FileNameAppendPlain(stem + [suffix[0]], suffix[1..]);
    FileNameSnoc(stem, suffix[0]);
  }

  /** `upperFirst`: capitalises the first character when it is an ASCII small letter. */
  function UpperFirst(name: string): (r: string)
    ensures |r| == |name|
    ensures |name| > 0 ==> r[1..] == name[1..] && !IsLower(r[0])
    ensures |name| > 0 && IsLower(name[0]) ==> r[0] == ToUpperChar(name[0])
    ensures |name| > 0 && !IsLower(name[0]) ==> r == name
  {
    if |name| > 0 && IsLower(name[0]) then [ToUpperChar(name[0])] + name[1..] else name
  }

  /** `lowerFirst`: lowers the first character when it is an ASCII capital. */
  function LowerFirst(name: string): (r: string)
    ensures |r| == |name|
    ensures |name| > 0 ==> r[1..] == name[1..] && !IsUpper(r[0])
    ensures |name| > 0 && IsUpper(name[0]) ==> r[0] == ToLowerChar(name[0])
    ensures |name| > 0 && !IsUpper(name[0]) ==> r == name
  {
    if |name| > 0 && IsUpper(name[0]) then [ToLowerChar(name[0])] + name[1..] else name
  }

  lemma UpperFirstIdempotent(name: string)
    ensures UpperFirst(UpperFirst(name)) == UpperFirst(name)
  {
  }

  lemma LowerFirstIdempotent(name: string)
    ensures LowerFirst(LowerFirst(name)) == LowerFirst(name)
  {
  }

  /** Lowering undoes capitalising a name that starts with a small letter, and back. */
  lemma CaseRoundTrip(name: string)
    ensures |name| > 0 && IsLower(name[0]) ==> LowerFirst(UpperFirst(name)) == name
    ensures |name| > 0 && IsUpper(name[0]) ==> UpperFirst(LowerFirst(name)) == name
  {
    if |name| > 0 {
      assert name == [name[0]] + name[1..];
    }
  }
}

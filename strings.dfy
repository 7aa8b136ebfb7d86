/**
 * The string operations the generator relies on: ASCII case mapping
 * (`toUpperCase` / `toLowerCase`), `capitalize`, `split(":")` and
 * `join(sep)`, and substring occurrence for stating what a rendered
 * text does or does not contain.
 */
module Strings {

  /** `toUpperCase` on one character, ASCII letters only. */
  function Upper(c: char): char
  {
    if 'a' <= c <= 'z' then (c as int - 32) as char else c
  }

  /** `toLowerCase` on one character, ASCII letters only. */
  function LowerChar(c: char): char
  {
    if 'A' <= c <= 'Z' then (c as int + 32) as char else c
  }

  /** `toLowerCase` on a string: every character lower-cased, nothing else changed. */
  function Lower(s: string): string
  {
    seq(|s|, i requires 0 <= i < |s| => LowerChar(s[i]))
  }

  lemma LowerIdempotent(s: string)
    ensures Lower(Lower(s)) == Lower(s)
  {
  }

  /** The only characters that lower-case to an ASCII lower-case letter `x` are `x` and its capital. */
  /** Text without upper-case letters is its own lower-case form. */
  lemma LowerFixed(s: string)
    requires forall i :: 0 <= i < |s| ==> !('A' <= s[i] <= 'Z')
    ensures Lower(s) == s
  {
  }

  lemma LowerCharInverse(c: char, x: char)
    requires 'a' <= x <= 'z'
    ensures LowerChar(c) == x <==> c == x || c == Upper(x)
  {
  }

  /**
   * `capitalize` (functions.js, and its copy in index.js): the first
   * character upper-cased, the rest unchanged; the empty string stays
   * empty. The same expression computes the schema type name.
   */
  function Capitalize(s: string): (r: string)
    ensures |r| == |s|
    ensures forall i :: 1 <= i < |s| ==> r[i] == s[i]
    ensures s != [] ==> !('a' <= r[0] <= 'z') && LowerChar(r[0]) == LowerChar(s[0])
  {
    if s == [] then "" else [Upper(s[0])] + s[1..]
  }

  lemma {:induction false} CapitalizeIdempotent(s: string)
    ensures Capitalize(Capitalize(s)) == Capitalize(s)
  {
    if s != [] {
      assert Upper(Upper(s[0])) == Upper(s[0]);
      assert Capitalize(s)[1..] == s[1..];
    }
  }

  /** Capitalizing only changes case: lower-casing forgets it. */
  lemma {:induction false} CapitalizeSameLetters(s: string)
    ensures Lower(Capitalize(s)) == Lower(s)
  {
    var c := Capitalize(s);
    assert forall i :: 0 <= i < |s| ==> LowerChar(c[i]) == LowerChar(s[i]);
  }

  // ---------------------------------------------------------------------
  // Prefixes, suffixes and occurrence

  predicate HasPrefix(s: string, p: string)
  {
    |p| <= |s| && s[..|p|] == p
  }

  predicate HasSuffix(s: string, p: string)
  {
    |p| <= |s| && s[|s| - |p|..] == p
  }

  /** `w` occurs in `s` starting at position `i`. */
  predicate OccursAt(w: string, s: string, i: int)
  {
    0 <= i <= |s| - |w| && s[i..i + |w|] == w
  }

  /** `w` occurs in `s` as a contiguous piece (JavaScript `s.includes(w)`). */
  ghost predicate Occurs(w: string, s: string)
  {
    exists i :: OccursAt(w, s, i)
  }

  lemma OccursSelf(w: string)
    ensures Occurs(w, w)
  {
    assert OccursAt(w, w, 0);
  }

  lemma OccursLeft(w: string, a: string, b: string)
    requires Occurs(w, a)
    ensures Occurs(w, a + b)
  {
    var i :| OccursAt(w, a, i);
    assert (a + b)[i..i + |w|] == a[i..i + |w|];
    assert OccursAt(w, a + b, i);
  }

  lemma OccursRight(w: string, a: string, b: string)
    requires Occurs(w, b)
    ensures Occurs(w, a + b)
  {
    var i :| OccursAt(w, b, i);
    assert (a + b)[|a| + i..|a| + i + |w|] == b[i..i + |w|];
    assert OccursAt(w, a + b, |a| + i);
  }

  /** A text lacking one of `w`'s characters cannot contain `w`. */
  lemma NotOccursMissingChar(w: string, s: string, k: nat)
    requires k < |w| && w[k] !in s
    ensures !Occurs(w, s)
  {
    forall i | 0 <= i <= |s| - |w|
      ensures !OccursAt(w, s, i)
    {
      assert s[i..i + |w|][k] == s[i + k];
    }
  }

  lemma NotOccursShort(w: string, s: string)
    requires |s| < |w|
    ensures !Occurs(w, s)
  {
  }

  lemma NotOccursPrefix(w: string, s: string, n: nat)
    requires !Occurs(w, s) && n <= |s|
    ensures !Occurs(w, s[..n])
  {
    forall i | 0 <= i <= n - |w|
      ensures !OccursAt(w, s[..n], i)
    {
      assert s[..n][i..i + |w|] == s[i..i + |w|];
      assert !OccursAt(w, s, i);
    }
  }

  /**
   * Two texts that do not contain `w`, glued at a character `w` does not
   * use, do not contain `w` either: an occurrence across the seam would
   * have to contain that character.
   */
  lemma NotOccursConcat(w: string, a: string, b: string)
    requires !Occurs(w, a) && !Occurs(w, b)
    requires (|a| > 0 && a[|a| - 1] !in w) || (|b| > 0 && b[0] !in w)
    ensures !Occurs(w, a + b)
  {
    forall i | 0 <= i <= |a + b| - |w|
      ensures !OccursAt(w, a + b, i)
    {
      var piece := (a + b)[i..i + |w|];
      if i + |w| <= |a| {
        assert piece == a[i..i + |w|];
        assert !OccursAt(w, a, i);
      } else if i >= |a| {
        assert piece == b[i - |a|..i - |a| + |w|];
        assert !OccursAt(w, b, i - |a|);
      } else if |a| > 0 && a[|a| - 1] !in w {
        assert piece[|a| - 1 - i] == a[|a| - 1];
      } else {
        assert piece[|a| - i] == b[0];
      }
    }
  }

  // ---------------------------------------------------------------------
  // join

  /** `xs.join(sep)`: the empty list joins to "", one element to itself. */
  function Join(sep: string, xs: seq<string>): string
  {
    if |xs| == 0 then ""
    else if |xs| == 1 then xs[0]
    else xs[0] + sep + Join(sep, xs[1..])
  }

  /** Joining concatenated lists puts one separator between the two joins. */
  lemma {:induction false} JoinAppend(sep: string, a: seq<string>, b: seq<string>)
    requires |a| > 0 && |b| > 0
    ensures Join(sep, a + b) == Join(sep, a) + sep + Join(sep, b)
  {
    assert (a + b)[0] == a[0];
    assert (a + b)[1..] == a[1..] + b;
    if |a| > 1 {
      JoinAppend(sep, a[1..], b);
    }
  }

  /** An element that contains `w` makes the joined text contain `w`. */
  lemma {:induction false} JoinOccurs(w: string, sep: string, xs: seq<string>, k: nat)
    requires k < |xs| && Occurs(w, xs[k])
    ensures Occurs(w, Join(sep, xs))
  {
    if |xs| > 1 {
      if k == 0 {
        OccursLeft(w, xs[0], sep);
        OccursLeft(w, xs[0] + sep, Join(sep, xs[1..]));
      } else {
        JoinOccurs(w, sep, xs[1..], k - 1);
        OccursRight(w, xs[0] + sep, Join(sep, xs[1..]));
      }
    }
  }

  /**
   * Elements and a separator that do not contain `w`, where the separator
   * starts and ends with characters `w` does not use, join to a text that
   * does not contain `w`.
   */
  lemma {:induction false} JoinNotOccurs(w: string, sep: string, xs: seq<string>)
    requires forall i :: 0 <= i < |xs| ==> !Occurs(w, xs[i])
    requires !Occurs(w, sep) && |sep| > 0 && sep[0] !in w && sep[|sep| - 1] !in w
    ensures !Occurs(w, Join(sep, xs))
  {
    if |xs| == 0 {
      assert !Occurs(w, sep[..0]) by { NotOccursPrefix(w, sep, 0); }
      assert sep[..0] == "";
    } else if |xs| > 1 {
      JoinNotOccurs(w, sep, xs[1..]);
      NotOccursConcat(w, xs[0], sep);
      var a := xs[0] + sep;
      assert a[|a| - 1] == sep[|sep| - 1];
      NotOccursConcat(w, a, Join(sep, xs[1..]));
    }
  }

  // ---------------------------------------------------------------------
  // split(":")

  /** Number of `:` characters in `s`. */
  function Colons(s: string): nat
  {
    if s == [] then 0 else (if s[0] == ':' then 1 else 0) + Colons(s[1..])
  }

  /**
   * `s.split(":")`: the pieces between the colons, in order; there is
   * always at least one piece and none contains a colon.
   */
  function Split(s: string): (r: seq<string>)
    ensures |r| >= 1
  {
    if s == [] then [""]
    else
      var t := Split(s[1..]);
      if s[0] == ':' then [""] + t else [[s[0]] + t[0]] + t[1..]
  }

  /** There is one piece more than there are colons, and no piece contains a colon. */
  lemma {:induction false} SplitPieces(s: string)
    ensures |Split(s)| == Colons(s) + 1
    ensures forall i :: 0 <= i < |Split(s)| ==> ':' !in Split(s)[i]
  {
    if s != [] {
      SplitPieces(s[1..]);
    }
  }

  /** Joining the pieces with `:` gives back the original text. */
  lemma {:induction false} JoinSplit(s: string)
    ensures Join(":", Split(s)) == s
  {
    if s != [] {
      var t := Split(s[1..]);
      JoinSplit(s[1..]);
      if s[0] == ':' {
        assert Split(s) == [""] + t;
        assert (([""] + t)[1..]) == t;
      } else {
        var r := [[s[0]] + t[0]] + t[1..];
        assert Split(s) == r;
        if |t| > 1 {
          assert r[1..] == t[1..];
          assert Join(":", r) == [s[0]] + (t[0] + ":" + Join(":", t[1..]));
        }
        assert s == [s[0]] + s[1..];
      }
    }
  }

  lemma {:induction false} SplitNoColon(s: string)
    requires ':' !in s
    ensures Split(s) == [s]
  {
    if s != [] {
      SplitNoColon(s[1..]);
      assert s == [s[0]] + s[1..];
    }
  }

  /** Splitting at a colon splits the two sides independently. */
  lemma {:induction false} SplitConcat(a: string, b: string)
    ensures Split(a + ":" + b) == Split(a) + Split(b)
  {
    var s := a + ":" + b;
    if a == [] {
      assert s == ":" + b;
      assert s[1..] == b;
    } else {
      assert s[0] == a[0];
      assert s[1..] == a[1..] + ":" + b;
      SplitConcat(a[1..], b);
    }
  }

  /** Splitting colon-free pieces glued by colons gives the pieces back. */
  lemma SplitThree(a: string, b: string, c: string)
    requires ':' !in a && ':' !in b && ':' !in c
    ensures Split(a + ":" + b + ":" + c) == [a, b, c]
  {
    SplitConcat(a, b);
    SplitConcat(a + ":" + b, c);
    SplitNoColon(a);
    SplitNoColon(b);
    SplitNoColon(c);
  }

  lemma SplitFour(a: string, b: string, c: string, d: string)
    requires ':' !in a && ':' !in b && ':' !in c && ':' !in d
    ensures Split(a + ":" + b + ":" + c + ":" + d) == [a, b, c, d]
  {
    SplitThree(a, b, c);
    SplitConcat(a + ":" + b + ":" + c, d);
    SplitNoColon(d);
  }

  lemma SplitFive(a: string, b: string, c: string, d: string, e: string)
    requires ':' !in a && ':' !in b && ':' !in c && ':' !in d && ':' !in e
    ensures Split(a + ":" + b + ":" + c + ":" + d + ":" + e) == [a, b, c, d, e]
  {
    SplitFour(a, b, c, d);
    SplitConcat(a + ":" + b + ":" + c + ":" + d, e);
    SplitNoColon(e);
  }

  /** Splitting a colon-free list joined with `:` gives back the list. */
  lemma {:induction false} SplitJoin(segs: seq<string>)
    requires |segs| >= 1
    requires forall i :: 0 <= i < |segs| ==> ':' !in segs[i]
    ensures Split(Join(":", segs)) == segs
  {
    SplitNoColon(segs[0]);
    if |segs| > 1 {
      SplitJoin(segs[1..]);
      SplitConcat(segs[0], Join(":", segs[1..]));
      assert segs == [segs[0]] + segs[1..];
    }
  }
}

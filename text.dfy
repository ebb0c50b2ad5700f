/**
 * The string built-ins the hooks rely on: `toLowerCase`, `split`, `trim`
 * and the decimal rendering of an integer inside a template literal,
 * together with the inverses that show each one loses nothing it should
 * keep (`Join` is such an inverse: it undoes `split` and is not itself a
 * built-in the hooks call).
 */
module Text {
  import opened Wrappers

  // ---------------------------------------------------------------------
  // Case

  predicate IsUpper(c: char) { 'A' <= c <= 'Z' }

  /** `toLowerCase` on one character (ASCII letters only). */
  function LowerChar(c: char): (r: char)
    ensures !IsUpper(r)
    ensures !IsUpper(c) ==> r == c
    ensures IsUpper(c) ==> 'a' <= r <= 'z' && r as int - 'a' as int == c as int - 'A' as int
  {
    if IsUpper(c) then (c as int - 'A' as int + 'a' as int) as char else c
  }

  /** `String.prototype.toLowerCase`, character by character. */
  function Lower(s: string): (r: string)
    ensures |r| == |s|
    ensures forall i :: 0 <= i < |s| ==> r[i] == LowerChar(s[i])
    ensures forall i :: 0 <= i < |r| ==> !IsUpper(r[i])
  {
    seq(|s|, i requires 0 <= i < |s| => LowerChar(s[i]))
  }

  /** Lower-casing leaves a string without upper-case letters as it is. */
  lemma LowerNoUpper(s: string)
    requires forall i :: 0 <= i < |s| ==> !IsUpper(s[i])
    ensures Lower(s) == s
  {
  }

  /** Lower-casing "a w1 + w2 b" keeps the white space and the '+'. */
  lemma LowerSpacedPlus(a: string, w1: string, w2: string, b: string)
    requires AllSpace(w1) && AllSpace(w2)
    ensures Lower(a + w1 + "+" + w2 + b) == Lower(a) + w1 + "+" + w2 + Lower(b)
  {
    var s := a + w1 + "+" + w2 + b;
    var t := Lower(a) + w1 + "+" + w2 + Lower(b);
    assert |s| == |t|;
    forall i | 0 <= i < |s| ensures Lower(s)[i] == t[i] {
      if i < |a| {
        assert s[i] == a[i];
      } else if i < |a| + |w1| {
        assert s[i] == w1[i - |a|] && IsSpace(s[i]);
      } else if i == |a| + |w1| {
        assert s[i] == '+';
      } else if i < |a| + |w1| + 1 + |w2| {
        assert s[i] == w2[i - |a| - |w1| - 1] && IsSpace(s[i]);
      } else {
        assert s[i] == b[i - |a| - |w1| - 1 - |w2|];
      }
    }
  }

  /** Lower-casing is idempotent, so a lower-cased shortcut parses like the original. */
  lemma LowerIdempotent(s: string)
    ensures Lower(Lower(s)) == Lower(s)
  {
    LowerNoUpper(Lower(s));
  }

  // ---------------------------------------------------------------------
  // split / join

  /**
   * The pieces of `[c] + t` from the pieces `rest` of `t`: a separator opens
   * a new, empty first piece; any other character joins the first piece.
   */
  function Step(c: char, rest: seq<string>, sep: char): (r: seq<string>)
    ensures |r| >= 1
    ensures |rest| >= 1 ==> |r| == |rest| + (if c == sep then 1 else 0)
  {
    if c == sep then [""] + rest
    else if |rest| == 0 then [[c]]
    else [[c] + rest[0]] + rest[1..]
  }

  /**
   * `String.prototype.split(sep)` for a one-character separator: the pieces
   * between the separators.
   */
  function Split(s: string, sep: char): (r: seq<string>)
    ensures |r| == 1 + Occurrences(s, sep)
    decreases |s|
  {
    if |s| == 0 then [""] else Step(s[0], Split(s[1..], sep), sep)
  }

  /** How many times `c` occurs in `s`. */
  function Occurrences(s: string, c: char): nat
    decreases |s|
  {
    if |s| == 0 then 0 else (if s[0] == c then 1 else 0) + Occurrences(s[1..], c)
  }

  /** One step of `Split`, for a string given as its first character and the rest. */
  lemma SplitCons(c: char, t: string, sep: char)
    ensures Split([c] + t, sep) == Step(c, Split(t, sep), sep)
  {
    assert ([c] + t)[1..] == t;
  }

  lemma StepShape(c: char, rest: seq<string>, sep: char)
    requires forall i :: 0 <= i < |rest| ==> sep !in rest[i]
    ensures forall i :: 0 <= i < |Step(c, rest, sep)| ==> sep !in Step(c, rest, sep)[i]
  {
  }

  /** There is always at least one piece, and no piece holds the separator. */
  lemma {:induction false} SplitShape(s: string, sep: char)
    ensures |Split(s, sep)| >= 1
    ensures forall i :: 0 <= i < |Split(s, sep)| ==> sep !in Split(s, sep)[i]
    decreases |s|
  {
    if |s| > 0 {
      SplitShape(s[1..], sep);
      StepShape(s[0], Split(s[1..], sep), sep);
    }
  }

  /** `Array.prototype.join(sep)`. */
  function Join(parts: seq<string>, sep: char): string
    decreases |parts|
  {
    if |parts| == 0 then ""
    else if |parts| == 1 then parts[0]
    else parts[0] + [sep] + Join(parts[1..], sep)
  }

  lemma JoinStep(c: char, rest: seq<string>, sep: char)
    requires |rest| >= 1
    ensures Join(Step(c, rest, sep), sep) == [c] + Join(rest, sep)
  {
    var r := Step(c, rest, sep);
    if c == sep {
      assert r[1..] == rest;
    } else if |rest| > 1 {
      assert r[1..] == rest[1..];
    }
  }

  /** Joining the pieces back with the separator gives the original string. */
  lemma {:induction false} JoinSplit(s: string, sep: char)
    ensures Join(Split(s, sep), sep) == s
    decreases |s|
  {
    if |s| > 0 {
      JoinSplit(s[1..], sep);
      JoinStep(s[0], Split(s[1..], sep), sep);
      assert [s[0]] + s[1..] == s;
    }
  }

  /** Splitting a join of separator-free pieces gives the pieces back. */
  lemma {:induction false} SplitJoin(parts: seq<string>, sep: char)
    requires |parts| >= 1
    requires forall i :: 0 <= i < |parts| ==> sep !in parts[i]
    ensures Split(Join(parts, sep), sep) == parts
    decreases |parts|
  {
    if |parts| == 1 {
      SplitFree(parts[0], sep);
    } else {
      SplitJoin(parts[1..], sep);
      SplitAppendSep(parts[0], Join(parts[1..], sep), sep);
      SplitFree(parts[0], sep);
      assert parts == [parts[0]] + parts[1..];
    }
  }

  /** A string without the separator is a single piece. */
  lemma {:induction false} SplitFree(s: string, sep: char)
    requires sep !in s
    ensures Split(s, sep) == [s]
    decreases |s|
  {
    if |s| > 0 {
      SplitFree(s[1..], sep);
      assert [s[0]] + s[1..] == s;
    }
  }

  lemma StepAppend(c: char, p: seq<string>, q: seq<string>, sep: char)
    requires |p| >= 1
    ensures Step(c, p + q, sep) == Step(c, p, sep) + q
  {
    if c != sep {
      assert (p + q)[0] == p[0];
      assert (p + q)[1..] == p[1..] + q;
    }
  }

  /** A separator between two strings cuts exactly there. */
  lemma {:induction false} SplitAppendSep(a: string, b: string, sep: char)
    ensures Split(a + [sep] + b, sep) == Split(a, sep) + Split(b, sep)
    decreases |a|
  {
    if |a| == 0 {
      assert a + [sep] + b == [sep] + b;
      SplitCons(sep, b, sep);
    } else {
      var c, a' := a[0], a[1..];
      SplitAppendSep(a', b, sep);
      assert a + [sep] + b == [c] + (a' + [sep] + b);
      SplitCons(c, a' + [sep] + b, sep);
      StepAppend(c, Split(a', sep), Split(b, sep), sep);
    }
  }

  lemma StepGrowLast(c: char, p: seq<string>, w: string, sep: char)
    requires |p| >= 1
    ensures var r := Step(c, p, sep);
      Step(c, p[..|p| - 1] + [p[|p| - 1] + w], sep) == r[..|r| - 1] + [r[|r| - 1] + w]
  {
    var r := Step(c, p, sep);
    var m := |p|;
    var p2 := p[..m - 1] + [p[m - 1] + w];
    if c == sep {
      assert r[..|r| - 1] == [""] + p[..m - 1];
    } else if m == 1 {
      assert p2 == [p[0] + w];
      assert r == [[c] + p[0]];
      assert Step(c, p2, sep) == [[c] + (p[0] + w)];
      assert [c] + (p[0] + w) == [c] + p[0] + w;
    } else {
      assert p2[0] == p[0] && p2[1..] == p[1..m - 1] + [p[m - 1] + w];
      assert r[..|r| - 1] == [[c] + p[0]] + p[1..m - 1];
    }
  }

  /** Characters without the separator glued to the end join the last piece. */
  lemma {:induction false} SplitAppendFree(x: string, w: string, sep: char)
    requires sep !in w
    ensures var p := Split(x, sep);
      |p| >= 1 && Split(x + w, sep) == p[..|p| - 1] + [p[|p| - 1] + w]
    decreases |x|
  {
    if |x| == 0 {
      assert x + w == w;
      SplitFree(w, sep);
    } else {
      var c, x' := x[0], x[1..];
      SplitAppendFree(x', w, sep);
      assert x + w == [c] + (x' + w);
      SplitCons(c, x' + w, sep);
      StepGrowLast(c, Split(x', sep), w, sep);
    }
  }

  /** Characters without the separator glued to the front join the first piece. */
  lemma {:induction false} SplitPrependFree(w: string, y: string, sep: char)
    requires sep !in w
    ensures var q := Split(y, sep);
      |q| >= 1 && Split(w + y, sep) == [w + q[0]] + q[1..]
    decreases |w|
  {
    var q := Split(y, sep);
    if |w| == 0 {
      assert w + y == y;
      assert w + q[0] == q[0];
      assert q == [q[0]] + q[1..];
    } else {
      var c, w' := w[0], w[1..];
      SplitPrependFree(w', y, sep);
      assert w + y == [c] + (w' + y);
      SplitCons(c, w' + y, sep);
      assert [c] + (w' + q[0]) == w + q[0];
    }
  }

  // ---------------------------------------------------------------------
  // trim

  /** The white space `trim` removes (ASCII white space, NBSP and the BOM). */
  predicate IsSpace(c: char) {
    c == ' ' || c == '\t' || c == '\n' || c == '\r' || c == '\U{B}' || c == '\U{C}'
    || c == '\U{A0}' || c == '\U{FEFF}'
  }

  predicate AllSpace(s: string) {
    forall i :: 0 <= i < |s| ==> IsSpace(s[i])
  }

  /** Drops leading white space. */
  function TrimStart(s: string): string
    decreases |s|
  {
    if |s| > 0 && IsSpace(s[0]) then TrimStart(s[1..]) else s
  }

  /** Drops trailing white space. */
  function TrimEnd(s: string): string
    decreases |s|
  {
    if |s| > 0 && IsSpace(s[|s| - 1]) then TrimEnd(s[..|s| - 1]) else s
  }

  /** What `TrimStart` keeps is a suffix, what it drops is white space, and it starts with none. */
  lemma {:induction false} TrimStartShape(s: string)
    ensures var r := TrimStart(s);
      |r| <= |s| && r == s[|s| - |r|..] && AllSpace(s[..|s| - |r|]) && (|r| > 0 ==> !IsSpace(r[0]))
    decreases |s|
  {
    if |s| > 0 && IsSpace(s[0]) {
      var t := s[1..];
      TrimStartShape(t);
      var r := TrimStart(t);
      assert s[..|s| - |r|] == [s[0]] + t[..|t| - |r|];
      assert s[|s| - |r|..] == t[|t| - |r|..];
    }
  }

  /** What `TrimEnd` keeps is a prefix, what it drops is white space, and it ends with none. */
  lemma {:induction false} TrimEndShape(s: string)
    ensures var r := TrimEnd(s);
      |r| <= |s| && r == s[..|r|] && AllSpace(s[|r|..]) && (|r| > 0 ==> !IsSpace(r[|r| - 1]))
    decreases |s|
  {
    if |s| > 0 && IsSpace(s[|s| - 1]) {
      var t := s[..|s| - 1];
      TrimEndShape(t);
      var r := TrimEnd(t);
      assert s[|r|..] == t[|r|..] + [s[|s| - 1]];
      assert s[..|r|] == t[..|r|];
    }
  }

  /**
   * `String.prototype.trim`: what is left is no longer than the input and
   * neither starts nor ends with white space.
   */
  function Trim(s: string): (r: string)
    ensures |r| <= |s|
    ensures exists i, j :: 0 <= i <= j <= |s| && r == s[i..j] && AllSpace(s[..i]) && AllSpace(s[j..])
    ensures |r| > 0 ==> !IsSpace(r[0]) && !IsSpace(r[|r| - 1])
  {
    var e := TrimEnd(s);
    TrimEndShape(s);
    TrimStartShape(e);
    var r := TrimStart(e);
    var i := |e| - |r|;
    assert |r| > 0 ==> r[|r| - 1] == e[|e| - 1];
    assert s[..i] == e[..i] && s[i..|e|] == r;
    assert AllSpace(s[..i]) && AllSpace(s[|e|..]);
    r
  }

  lemma {:induction false} TrimEndAppendSpace(t: string, w: string)
    requires AllSpace(w)
    ensures TrimEnd(t + w) == TrimEnd(t)
    decreases |w|
  {
    if |w| > 0 {
      var s := t + w;
      assert s[..|s| - 1] == t + w[..|w| - 1];
      TrimEndAppendSpace(t, w[..|w| - 1]);
    } else {
      assert t + w == t;
    }
  }

  lemma {:induction false} TrimStartPrependSpace(w: string, t: string)
    requires AllSpace(w)
    ensures TrimStart(w + t) == TrimStart(t)
    decreases |w|
  {
    if |w| > 0 {
      var s := w + t;
      assert s[1..] == w[1..] + t;
      TrimStartPrependSpace(w[1..], t);
    } else {
      assert w + t == t;
    }
  }

  /** White space in front survives `TrimEnd` only when something else does. */
  lemma {:induction false} TrimEndPrependSpace(w: string, t: string)
    requires AllSpace(w)
    ensures TrimEnd(w + t) == if TrimEnd(t) == [] then [] else w + TrimEnd(t)
    decreases |t|
  {
    var s := w + t;
    if |t| == 0 {
      assert s == w;
      AllSpaceTrimEnd(w);
    } else if IsSpace(t[|t| - 1]) {
      assert s[..|s| - 1] == w + t[..|t| - 1];
      TrimEndPrependSpace(w, t[..|t| - 1]);
    }
  }

  lemma AllSpaceTrimEnd(w: string)
    requires AllSpace(w)
    ensures TrimEnd(w) == []
  {
  }

  /** White space on either side never changes what `trim` keeps. */
  lemma TrimPadded(w1: string, t: string, w2: string)
    requires AllSpace(w1) && AllSpace(w2)
    ensures Trim(w1 + t + w2) == Trim(t)
  {
    assert w1 + t + w2 == w1 + (t + w2);
    TrimEndPrependSpace(w1, t + w2);
    TrimEndAppendSpace(t, w2);
    if TrimEnd(t) != [] {
      TrimStartPrependSpace(w1, TrimEnd(t));
    }
  }

  lemma TrimAppendSpace(t: string, w: string)
    requires AllSpace(w)
    ensures Trim(t + w) == Trim(t)
  {
    assert "" + t + w == t + w;
    TrimPadded("", t, w);
  }

  lemma TrimPrependSpace(w: string, t: string)
    requires AllSpace(w)
    ensures Trim(w + t) == Trim(t)
  {
    assert w + t + "" == w + t;
    TrimPadded(w, t, "");
  }

  // ---------------------------------------------------------------------
  // Decimal numbers

  predicate IsDigit(c: char) { '0' <= c <= '9' }

  function DigitChar(d: nat): (c: char)
    requires d < 10
    ensures IsDigit(c)
  {
    ('0' as int + d) as char
  }

  function DigitValue(c: char): (d: nat)
    requires IsDigit(c)
    ensures d < 10 && DigitChar(d) == c
  {
    c as int - '0' as int
  }

  /** The decimal rendering of a natural number, without leading zeros. */
  function NatToString(n: nat): (s: string)
    ensures |s| >= 1
    ensures forall i :: 0 <= i < |s| ==> IsDigit(s[i])
    ensures |s| > 1 ==> s[0] != '0'
    decreases n
  {
    if n < 10 then [DigitChar(n)] else NatToString(n / 10) + [DigitChar(n % 10)]
  }

  /** `${n}` for an integer `n`. */
  function IntToString(n: int): (s: string)
    ensures |s| >= 1
    ensures s[0] == '-' <==> n < 0
    ensures forall i :: 0 <= i < |s| ==> s[i] == '-' || IsDigit(s[i])
  {
    if n < 0 then "-" + NatToString(-n) else NatToString(n)
  }

  /** Reads a non-empty string of decimal digits. */
  function ParseNat(s: string): Option<nat>
    decreases |s|
  {
    if |s| == 0 || !IsDigit(s[|s| - 1]) then None
    else if |s| == 1 then Some(DigitValue(s[0]))
    else match ParseNat(s[..|s| - 1])
      case None => None
      case Some(p) => Some(p * 10 + DigitValue(s[|s| - 1]))
  }

  /** Reads an optionally negative decimal integer. */
  function ParseInt(s: string): Option<int> {
    if |s| > 0 && s[0] == '-' then
      match ParseNat(s[1..])
      case None => None
      case Some(n) => Some(0 - n)
    else
      match ParseNat(s)
      case None => None
      case Some(n) => Some(n as int)
  }

  lemma {:induction false} ParseNatToString(n: nat)
    ensures ParseNat(NatToString(n)) == Some(n)
    decreases n
  {
    if n >= 10 {
      var s := NatToString(n);
      assert s[..|s| - 1] == NatToString(n / 10);
      ParseNatToString(n / 10);
    }
  }

  /** Rendering an integer and reading it back gives the same integer. */
  lemma ParseIntToString(n: int)
    ensures ParseInt(IntToString(n)) == Some(n)
  {
    if n < 0 {
      var t := NatToString(-n);
      ParseNatToString(-n);
      assert ParseNat(t) == Some(-n);
      var s := "-" + t;
      assert s[0] == '-' && s[1..] == t;
    } else {
      var t := NatToString(n);
      ParseNatToString(n);
      assert ParseNat(t) == Some(n);
      assert IsDigit(t[0]);
    }
  }
}

/** The string library calls that the canonicalisers make. One char stands for one Go byte. */
module Text {

  predicate Free(s: string, c: char) {
    forall i | 0 <= i < |s| :: s[i] != c
  }

  /** strings.ReplaceAll: leftmost, non-overlapping. */
  function ReplaceAll(s: string, pat: string, rep: string): string
    requires pat != ""
  {
    if s == "" then ""
    else if pat <= s then rep + ReplaceAll(s[|pat|..], pat, rep)
    else [s[0]] + ReplaceAll(s[1..], pat, rep)
  }

  /** strings.Split on a one-byte separator. */
  function Split(s: string, c: char): (parts: seq<string>)
    ensures |parts| >= 1
  {
    if s == "" then [""]
    else
      var rest := Split(s[1..], c);
      if s[0] == c then [""] + rest else [[s[0]] + rest[0]] + rest[1..]
  }

  /** strings.Join */
  function Join(parts: seq<string>, sep: string): string {
    if |parts| == 0 then ""
    else if |parts| == 1 then parts[0]
    else parts[0] + sep + Join(parts[1..], sep)
  }

  /** No occurrence of the pattern starts inside a, so replacement leaves a alone. */
  lemma {:induction false} ReplaceSkips(a: string, b: string, pat: string, rep: string)
    requires pat != ""
    requires forall i | 0 <= i < |a| :: !(pat <= (a + b)[i..])
    ensures ReplaceAll(a + b, pat, rep) == a + ReplaceAll(b, pat, rep)
  {
    if a == "" {
      assert a + b == b;
    } else {
      assert (a + b)[0..] == a + b;
      assert (a + b)[1..] == a[1..] + b;
      forall i | 0 <= i < |a[1..]| ensures !(pat <= (a[1..] + b)[i..]) {
        assert (a[1..] + b)[i..] == (a + b)[i + 1..];
      }
      ReplaceSkips(a[1..], b, pat, rep);
      assert a == [a[0]] + a[1..];
    }
  }

  lemma {:induction false} ReplaceHits(pat: string, b: string, rep: string)
    requires pat != ""
    ensures ReplaceAll(pat + b, pat, rep) == rep + ReplaceAll(b, pat, rep)
  {
    assert pat <= pat + b;
    assert (pat + b)[|pat|..] == b;
  }

  /** One differing character rules out an occurrence. */
  lemma NoPrefix(pat: string, s: string, i: nat, k: nat)
    requires i <= |s| && k < |pat|
    requires i + k >= |s| || s[i + k] != pat[k]
    ensures !(pat <= s[i..])
  {
    assert i + k < |s| ==> s[i..][k] == s[i + k];
  }

  lemma {:induction false} ReplaceNothing(s: string, pat: string, rep: string)
    requires pat != ""
    requires forall i | 0 <= i < |s| :: !(pat <= s[i..])
    ensures ReplaceAll(s, pat, rep) == s
  {
    assert s + "" == s;
    ReplaceSkips(s, "", pat, rep);
  }

  lemma {:induction false} JoinSplit(s: string, c: char)
    ensures Join(Split(s, c), [c]) == s
  {
    if s != "" {
      JoinSplit(s[1..], c);
      var rest := Split(s[1..], c);
      assert s == [s[0]] + s[1..];
      if s[0] == c {
        assert ([""] + rest)[1..] == rest;
      } else {
        var parts := [[s[0]] + rest[0]] + rest[1..];
        assert parts[1..] == rest[1..];
      }
    }
  }

  lemma {:induction false} SplitPrefix(a: string, b: string, c: char)
    requires Free(a, c)
    ensures Split(a + [c] + b, c) == [a] + Split(b, c)
    ensures Split(a, c) == [a]
  {
    if a == "" {
      assert a + [c] + b == [c] + b;
    } else {
      assert (a + [c] + b)[1..] == a[1..] + [c] + b;
      SplitPrefix(a[1..], b, c);
      assert a == [a[0]] + a[1..];
    }
  }

  /** Splitting a join gives the parts back, so joining is injective on separator-free parts. */
  lemma {:induction false} SplitJoin(parts: seq<string>, c: char)
    requires parts != []
    requires forall i | 0 <= i < |parts| :: Free(parts[i], c)
    ensures Split(Join(parts, [c]), c) == parts
  {
    if |parts| == 1 {
      SplitPrefix(parts[0], "", c);
    } else {
      var rest := Join(parts[1..], [c]);
      assert Free(parts[0], c);
      SplitJoin(parts[1..], c);
      SplitPrefix(parts[0], rest, c);
      assert Join(parts, [c]) == parts[0] + [c] + rest;
      assert [parts[0]] + parts[1..] == parts;
    }
  }

  lemma {:induction false} JoinAppend(xs: seq<string>, ys: seq<string>, sep: string)
    requires xs != [] && ys != []
    ensures Join(xs + ys, sep) == Join(xs, sep) + sep + Join(ys, sep)
  {
    if |xs| == 1 {
      assert (xs + ys)[1..] == ys;
    } else {
      JoinAppend(xs[1..], ys, sep);
      assert (xs + ys)[1..] == xs[1..] + ys;
    }
  }

  const HEX_DIGITS := "0123456789abcdef"

  /** hex.EncodeToString */
  function Hex(s: string): string {
    if s == "" then ""
    else [HEX_DIGITS[s[0] as int / 16 % 16], HEX_DIGITS[s[0] as int % 16]] + Hex(s[1..])
  }

  lemma {:induction false} HexPlain(s: string)
    ensures Free(Hex(s), '\n') && |Hex(s)| == 2 * |s|
  {
    if s != "" {
      HexPlain(s[1..]);
    }
  }

  /** One char per byte. */
  predicate IsBytes(s: string) {
    forall i | 0 <= i < |s| :: s[i] as int < 256
  }

  predicate IsLowerHex(c: char) {
    48 <= c as int <= 57 || 97 <= c as int <= 102
  }

  /** The value of a hexadecimal digit, from its code. */
  function NibbleOf(c: char): int
    requires IsLowerHex(c)
  {
    if c as int <= 57 then c as int - 48 else c as int - 87
  }

  lemma HexDigitReads(v: nat)
    requires v < 16
    ensures IsLowerHex(HEX_DIGITS[v]) && NibbleOf(HEX_DIGITS[v]) == v
  {
  }

  /** The text is lower-case digits, and reading them in pairs, high half first, gives the bytes back. */
  lemma {:induction false} HexReads(s: string, i: nat)
    requires IsBytes(s) && i < |s|
    ensures |Hex(s)| == 2 * |s|
    ensures IsLowerHex(Hex(s)[2 * i]) && IsLowerHex(Hex(s)[2 * i + 1])
    ensures s[i] as int == 16 * NibbleOf(Hex(s)[2 * i]) + NibbleOf(Hex(s)[2 * i + 1])
  {
    HexPlain(s);
    if i == 0 {
      HexDigitReads(s[0] as int / 16 % 16);
      HexDigitReads(s[0] as int % 16);
    } else {
      HexReads(s[1..], i - 1);
      assert Hex(s)[2 * i] == Hex(s[1..])[2 * (i - 1)] && Hex(s)[2 * i + 1] == Hex(s[1..])[2 * (i - 1) + 1];
    }
  }

  /** Hexadecimal text determines the bytes. */
  lemma HexInjective(a: string, b: string)
    requires IsBytes(a) && IsBytes(b)
    ensures Hex(a) == Hex(b) <==> a == b
  {
    if Hex(a) == Hex(b) {
      HexPlain(a);
      HexPlain(b);
      forall i | 0 <= i < |a| ensures a[i] == b[i] {
        HexReads(a, i);
        HexReads(b, i);
      }
    }
  }

  /** A character that no hexadecimal digit is does not occur. */
  lemma HexFree(s: string, c: char)
    requires IsBytes(s) && !IsLowerHex(c)
    ensures Free(Hex(s), c)
  {
    HexPlain(s);
    forall i | 0 <= i < |Hex(s)| ensures Hex(s)[i] != c {
      HexReads(s, i / 2);
      assert i == 2 * (i / 2) || i == 2 * (i / 2) + 1;
    }
  }
}

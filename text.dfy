/** The two string primitives `calculate` uses with one-character
    arguments: `String.prototype.replace`, which replaces the first
    occurrence only (the calculator reads a comma as the decimal separator
    and writes the decimal point back as a comma), and the second field of
    `String.prototype.split`, which is `undefined` when the separator does
    not occur. */
module Text {
  import opened Wrappers

  /** Replaces the first occurrence of `from` in `s` by `to`; a string that
      does not contain `from` is returned unchanged. */
  function ReplaceFirst(s: string, from: char, to: char): (r: string)
    ensures |r| == |s|
    ensures from !in s ==> r == s
    ensures from in s && from != to ==> to in r
  {
    if s == [] then []
    else if s[0] == from then [to] + s[1..]
    else [s[0]] + ReplaceFirst(s[1..], from, to)
  }

  /** When `from` first occurs at index `i`, the result is `s` with exactly
      that one position changed to `to`: every later occurrence is kept. */
  lemma {:induction false} ReplaceFirstAt(s: string, from: char, to: char, i: nat)
    requires i < |s| && s[i] == from
    requires forall j :: 0 <= j < i ==> s[j] != from
    ensures ReplaceFirst(s, from, to) == s[..i] + [to] + s[i + 1..]
  {
    if i == 0 {
      assert s[0] == from;
    } else {
      assert s[0] != from;
      ReplaceFirstAt(s[1..], from, to, i - 1);
      assert s[..i] == [s[0]] + s[1..][..i - 1];
      assert s[i + 1..] == s[1..][i..];
    }
  }

  /** Position by position: the result differs from `s` at most in one
      place, and that place holds an occurrence of `from` that no earlier
      position holds. */
  lemma {:induction false} ReplaceFirstPointwise(s: string, from: char, to: char, k: nat)
    requires k < |s|
    ensures ReplaceFirst(s, from, to)[k] == s[k]
              || (s[k] == from && ReplaceFirst(s, from, to)[k] == to
                  && from !in s[..k])
  {
    if s[0] != from && k > 0 {
      ReplaceFirstPointwise(s[1..], from, to, k - 1);
      assert s[1..][k - 1] == s[k];
      assert s[..k] == [s[0]] + s[1..][..k - 1];
    }
  }

  /** Replacing `x` by `y` and then `y` by `x` gives the original string
      back whenever `y` did not occur in it: the first `y` after the first
      step is exactly the replaced `x`. */
  lemma {:induction false} ReplaceFirstRoundTrip(s: string, x: char, y: char)
    requires y !in s
    ensures ReplaceFirst(ReplaceFirst(s, x, y), y, x) == s
  {
    if s != [] {
      if s[0] == x {
        assert ReplaceFirst(s, x, y) == [y] + s[1..];
      } else {
        assert y !in s[1..];
        ReplaceFirstRoundTrip(s[1..], x, y);
        assert ReplaceFirst(s, x, y) == [s[0]] + ReplaceFirst(s[1..], x, y);
      }
    }
  }

  /** A string with a single occurrence of `from` has none left afterwards,
      provided `to` differs from `from`. */
  lemma SoleOccurrenceRemoved(s: string, from: char, to: char, i: nat)
    requires i < |s| && s[i] == from && from != to
    requires forall j :: 0 <= j < |s| && j != i ==> s[j] != from
    ensures from !in ReplaceFirst(s, from, to)
  {
    ReplaceFirstAt(s, from, to, i);
    var r := ReplaceFirst(s, from, to);
    forall k | 0 <= k < |r|
      ensures r[k] != from
    {
      if k < i {
        assert r[k] == s[k];
      } else if k > i {
        assert r[k] == s[k];
      }
    }
  }

  /** The text before the first `c` (all of `t` when there is none): the
      first field of `t.split(c)`. */
  function FirstField(t: string, c: char): (r: string)
    ensures c !in r && r <= t
    ensures |r| < |t| ==> t[|r|] == c
  {
    if t == [] || t[0] == c then [] else [t[0]] + FirstField(t[1..], c)
  }

  /** The second field of `t.split(c)`, the text between the first and the
      second `c`; `None` (JavaScript's `undefined`) when `t` has no `c`. */
  function SecondField(t: string, c: char): (r: Option<string>)
    ensures r.None? <==> c !in t
    ensures r.Some? ==> c !in r.value
  {
    if t == [] then None
    else if t[0] == c then Some(FirstField(t[1..], c))
    else SecondField(t[1..], c)
  }

  /** A text with exactly one `c` splits into the parts around it. */
  lemma {:induction false} SecondFieldOfOne(p: string, c: char, d: string)
    requires c !in p && c !in d
    ensures SecondField(p + [c] + d, c) == Some(d)
  {
    var t := p + [c] + d;
    if p == [] {
      assert t == [c] + d;
      assert t[1..] == d;
      FirstFieldWhole(d, c);
    } else {
      assert t[0] == p[0];
      assert t[1..] == p[1..] + [c] + d;
      SecondFieldOfOne(p[1..], c, d);
    }
  }

  /** A text without `c` is its own first field. */
  lemma {:induction false} FirstFieldWhole(t: string, c: char)
    requires c !in t
    ensures FirstField(t, c) == t
  {
    if t != [] {
      FirstFieldWhole(t[1..], c);
    }
  }
}


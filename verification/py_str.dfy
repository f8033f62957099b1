/** The parts of Python's `str` that the score parsers use: `split` on a single
    character, `startswith`, and `strip` with no argument. */
module PyStr {

  /** Python's `str.isspace()` character set, which is what `str.strip()`
      removes: ASCII tab to carriage return, the four information separators,
      space, NEL, no-break space and the Unicode space separators. (`float()`
      skips all of them but the information separators.) */
  predicate IsSpace(c: char) {
    || '\t' <= c <= '\r'
    || '\U{1C}' <= c <= ' '
    || c == '\U{85}' || c == '\U{A0}' || c == '\U{1680}'
    || '\U{2000}' <= c <= '\U{200A}'
    || c == '\U{2028}' || c == '\U{2029}' || c == '\U{202F}'
    || c == '\U{205F}' || c == '\U{3000}'
  }

  predicate AllSpace(s: string) {
    forall k :: 0 <= k < |s| ==> IsSpace(s[k])
  }

  /** Whitespace holds no character that is not whitespace. */
  lemma NotInSpace(w: string, c: char)
    requires AllSpace(w) && !IsSpace(c)
    ensures c !in w
  {
  }

  /** `s.startswith(p)`: every character of `p` stands at the same place in
      `s`. */
  function StartsWith(s: string, p: string): (r: bool)
    ensures r <==> |p| <= |s| && forall k :: 0 <= k < |p| ==> s[k] == p[k]
  {
    |p| <= |s| && s[..|p|] == p
  }

  /** A prefix stays a prefix whatever is appended. */
  lemma StartsWithExtend(s: string, p: string, t: string)
    requires StartsWith(s, p)
    ensures StartsWith(s + t, p)
  {
    assert (s + t)[..|p|] == s[..|p|];
  }

  /** One differing character within the prefix's length rules a prefix out. */
  lemma NotStartsWith(s: string, p: string, k: nat)
    requires k < |p| && k < |s| && s[k] != p[k]
    ensures !StartsWith(s, p)
  {
  }

  /** Position of the first occurrence of `c` in `s`. */
  function IndexOf(s: string, c: char): (i: nat)
    requires c in s
    ensures i < |s| && s[i] == c
    ensures c !in s[..i]
  {
    if s[0] == c then 0 else 1 + IndexOf(s[1..], c)
  }

  /** The inverse of `Split`: `sep.join(parts)` for a one-character `sep`. */
  function Join(parts: seq<string>, sep: char): string {
    if |parts| == 0 then ""
    else if |parts| == 1 then parts[0]
    else parts[0] + [sep] + Join(parts[1..], sep)
  }

  /** `s.split(sep)` for a one-character separator: the maximal separator-free
      pieces of `s`, in order. There is always at least one piece, and more
      than one exactly when `sep` occurs in `s`. */
  function Split(s: string, sep: char): (parts: seq<string>)
    ensures |parts| >= 1
    ensures |parts| == 1 <==> sep !in s
    ensures forall k :: 0 <= k < |parts| ==> sep !in parts[k]
    ensures Join(parts, sep) == s
    decreases |s|
  {
    if sep in s then
      var i := IndexOf(s, sep);
      assert s == s[..i] + [sep] + s[i + 1..];
      [s[..i]] + Split(s[i + 1..], sep)
    else
      [s]
  }

  /** Splitting a separator-free piece followed by a separator peels off that
      piece. */
  lemma {:induction false} SplitCons(p: string, sep: char, t: string)
    requires sep !in p
    ensures Split(p + [sep] + t, sep) == [p] + Split(t, sep)
  {
    var s := p + [sep] + t;
    assert s[|p|] == sep;
    assert sep in s;
    var i := IndexOf(s, sep);
    assert i == |p|;
    assert s[..i] == p;
    assert s[i + 1..] == t;
  }

  /** Round trip: splitting the join of separator-free pieces gives the pieces
      back. Together with `Join(Split(s, sep), sep) == s` this makes `Split`
      and `Join` inverse to each other. */
  lemma {:induction false} SplitJoin(parts: seq<string>, sep: char)
    requires |parts| >= 1
    requires forall k :: 0 <= k < |parts| ==> sep !in parts[k]
    ensures Split(Join(parts, sep), sep) == parts
    decreases |parts|
  {
    if |parts| > 1 {
      var later := parts[1..];
      var rest := Join(later, sep);
      assert Join(parts, sep) == parts[0] + [sep] + rest;
      SplitJoin(later, sep);
      SplitCons(parts[0], sep, rest);
      assert parts == [parts[0]] + later;
    }
  }

  /** What `s.split(sep)[0]` and `s.split(sep)[1]` are: the text before the
      first separator, and the text between the first and the second separator
      (or the end of `s` when there is no second one). */
  lemma SplitFields(a: string, sep: char, b: string, rest: string)
    requires sep !in a && sep !in b
    requires rest == [] || rest[0] == sep
    ensures |Split(a + [sep] + b + rest, sep)| >= 2
    ensures Split(a + [sep] + b + rest, sep)[0] == a
    ensures Split(a + [sep] + b + rest, sep)[1] == b
  {
    var t := b + rest;
    var s := a + [sep] + b + rest;
    assert s == a + [sep] + t;
    SplitCons(a, sep, t);
    SplitFirstField(b, sep, rest);
    var ps := Split(t, sep);
    assert Split(s, sep) == [a] + ps;
    assert ps[0] == b;
  }

  /** The text before the first separator is the first piece, whatever
      follows. */
  lemma SplitFirstField(a: string, sep: char, rest: string)
    requires sep !in a
    requires rest == [] || rest[0] == sep
    ensures Split(a + rest, sep)[0] == a
  {
    if rest == [] {
      assert a + rest == a;
      assert Join(Split(a, sep), sep) == Split(a, sep)[0];
    } else {
      assert rest == [sep] + rest[1..];
      assert a + rest == a + [sep] + rest[1..];
      SplitCons(a, sep, rest[1..]);
    }
  }

  /** `s.lstrip()`: the longest suffix of `s` that does not start with
      whitespace; everything dropped is whitespace. */
  function StripStart(s: string): (r: string)
    ensures |r| <= |s| && r == s[|s| - |r|..]
    ensures AllSpace(s[..|s| - |r|])
    ensures |r| == 0 || !IsSpace(r[0])
  {
    if |s| > 0 && IsSpace(s[0]) then StripStart(s[1..]) else s
  }

  /** `s.rstrip()`: the longest prefix of `s` that does not end with
      whitespace; everything dropped is whitespace. */
  function StripEnd(s: string): (r: string)
    ensures |r| <= |s| && r == s[..|r|]
    ensures AllSpace(s[|r|..])
    ensures |r| == 0 || !IsSpace(r[|r| - 1])
  {
    if |s| > 0 && IsSpace(s[|s| - 1]) then
      var t := s[..|s| - 1];
      var r := StripEnd(t);
      assert s == t + [s[|s| - 1]];
      assert s[|r|..] == t[|r|..] + [s[|s| - 1]];
      r
    else
      s
  }

  /** `s.strip()`: `s` with leading and trailing whitespace removed; the
      result neither starts nor ends with whitespace. */
  function Strip(s: string): (r: string)
    ensures |r| <= |s|
    ensures |r| == 0 || (!IsSpace(r[0]) && !IsSpace(r[|r| - 1]))
  {
    StripEnd(StripStart(s))
  }

  /** What `strip` keeps is one contiguous piece of `s`, and only whitespace
      lies around it. */
  lemma StripIsInfix(s: string) returns (i: nat)
    ensures i + |Strip(s)| <= |s| && Strip(s) == s[i..i + |Strip(s)|]
    ensures AllSpace(s[..i]) && AllSpace(s[i + |Strip(s)|..])
  {
    var m := StripStart(s);
    i := |s| - |m|;
    var r := StripEnd(m);
    assert Strip(s) == r;
    assert r == s[i..i + |r|] by {
      assert s[i..][..|r|] == s[i..i + |r|];
    }
    assert AllSpace(s[i + |r|..]) by {
      assert s[i..][|r|..] == s[i + |r|..];
    }
  }

  /** Whatever is kept by `StripStart` is untouched when the text starts with
      a non-space character. */
  lemma {:induction false} StripStartPadded(w: string, t: string)
    requires AllSpace(w)
    requires |t| == 0 || !IsSpace(t[0])
    ensures StripStart(w + t) == t
    decreases |w|
  {
    if |w| > 0 {
      assert (w + t)[1..] == w[1..] + t;
      StripStartPadded(w[1..], t);
    } else {
      assert w + t == t;
    }
  }

  lemma {:induction false} StripEndPadded(t: string, w: string)
    requires AllSpace(w)
    requires |t| == 0 || !IsSpace(t[|t| - 1])
    ensures StripEnd(t + w) == t
    decreases |w|
  {
    if |w| > 0 {
      assert (t + w)[..|t + w| - 1] == t + w[..|w| - 1];
      StripEndPadded(t, w[..|w| - 1]);
    } else {
      assert t + w == t;
    }
  }

  /** Stripping undoes padding with whitespace: a text without whitespace at
      either end comes back unchanged from any amount of surrounding
      whitespace. */
  lemma StripPadded(w1: string, t: string, w2: string)
    requires AllSpace(w1) && AllSpace(w2)
    requires |t| == 0 || (!IsSpace(t[0]) && !IsSpace(t[|t| - 1]))
    ensures Strip(w1 + t + w2) == t
  {
    if |t| == 0 {
      assert w1 + t + w2 == w1 + w2;
      StripBlank(w1 + w2);
    } else {
      assert w1 + t + w2 == w1 + (t + w2);
      StripStartPadded(w1, t + w2);
      StripEndPadded(t, w2);
    }
  }

  /** Text that is all whitespace strips to nothing. */
  lemma StripBlank(w: string)
    requires AllSpace(w)
    ensures Strip(w) == ""
  {
    StripStartPadded(w, "");
    assert w + "" == w;
  }

  /** Stripping twice is the same as stripping once. */
  lemma StripIdempotent(s: string)
    ensures Strip(Strip(s)) == Strip(s)
  {
    StripPadded("", Strip(s), "");
    assert "" + Strip(s) + "" == Strip(s);
  }

  /** Leading whitespace alone is stripped the same way. */
  lemma StripLead(w: string, t: string)
    requires AllSpace(w)
    requires |t| == 0 || (!IsSpace(t[0]) && !IsSpace(t[|t| - 1]))
    ensures Strip(w + t) == t
  {
    StripPadded(w, t, "");
    assert w + t + "" == w + t;
  }

  /** The first and the last character of a concatenation. */
  lemma ConcatEnds(a: string, b: string)
    requires |a| > 0
    ensures (a + b)[0] == a[0]
    ensures (a + b)[|a + b| - 1] == (if |b| == 0 then a[|a| - 1] else b[|b| - 1])
  {
  }

  /** When the part kept from the start ends in a non-space character, the
      trailing whitespace of the rest is what `rstrip` removes. */
  lemma {:induction false} StripEndConcat(a: string, b: string)
    requires |a| > 0 && !IsSpace(a[|a| - 1])
    ensures StripEnd(a + b) == a + StripEnd(b)
    decreases |b|
  {
    if |b| > 0 && IsSpace(b[|b| - 1]) {
      assert (a + b)[..|a + b| - 1] == a + b[..|b| - 1];
      StripEndConcat(a, b[..|b| - 1]);
    } else if |b| == 0 {
      assert a + b == a;
    }
  }
}

/** String primitives shared by the renderer, the decoders and the printer. */
module Text {
  import opened Wrappers

  /** What a decoding step read, and the text that follows it. */
  datatype Parsed<T> = Parsed(value: T, rest: string)

  /** Regrouping a concatenation, for proofs about text written piece by piece. */
  lemma AppendAssoc(a: string, b: string, c: string)
    ensures a + b + c == a + (b + c)
  {
  }

  lemma AppendEmpty(a: string)
    ensures a + "" == a
  {
  }

  lemma AppendAssoc5(a: string, b: string, c: string, d: string, e: string)
    ensures a + b + c + d + e == a + (b + c + d + e)
  {
    AppendAssoc(a, b, c);
    AppendAssoc(a, b + c, d);
    AppendAssoc(a, b + c + d, e);
  }

  lemma EmptyAppend(a: string)
    ensures "" + a == a
  {
  }

  /** f(x) for every x in xs, concatenated in order. */
  function ConcatMap<T>(xs: seq<T>, f: T -> string): string
  {
    if |xs| == 0 then "" else f(xs[0]) + ConcatMap(xs[1..], f)
  }

  /** Appending one element appends its text (the shape of a `for` loop that prints). */
  lemma {:induction false} ConcatMapSnoc<T>(xs: seq<T>, x: T, f: T -> string)
    ensures ConcatMap(xs + [x], f) == ConcatMap(xs, f) + f(x)
  {
    if |xs| == 0 {
      assert xs + [x] == [x];
    } else {
      assert (xs + [x])[1..] == xs[1..] + [x];
      ConcatMapSnoc(xs[1..], x, f);
    }
  }

  /**
   * One more element of a list printed after a fixed prefix on a stream: the shape of every
   * printing loop's invariant step.
   */
  lemma ConcatMapExtend<T>(start: string, pre: string, xs: seq<T>, i: nat, f: T -> string)
    requires i < |xs|
    ensures start + (pre + ConcatMap(xs[..i], f)) + f(xs[i]) == start + (pre + ConcatMap(xs[..i + 1], f))
  {
    assert xs[..i + 1] == xs[..i] + [xs[i]];
    ConcatMapSnoc(xs[..i], xs[i], f);
    AppendAssoc(start, pre + ConcatMap(xs[..i], f), f(xs[i]));
    AppendAssoc(pre, ConcatMap(xs[..i], f), f(xs[i]));
  }

  /** The middle part of a concatenation is found at its offset. */
  lemma SliceMiddle(a: string, b: string, c: string)
    ensures BlockAt(a + b + c, |a|, b)
  {
    assert (a + b + c)[|a| .. |a| + |b|] == (a + b)[|a|..];
  }

  /** The text of element i sits between the texts of the elements before and after it. */
  lemma {:induction false} ConcatMapSplitAt<T>(xs: seq<T>, i: nat, f: T -> string)
    requires i < |xs|
    ensures ConcatMap(xs, f) == ConcatMap(xs[..i], f) + f(xs[i]) + ConcatMap(xs[i + 1..], f)
  {
    if i == 0 {
      assert xs[..0] == [];
      assert xs[1..] == xs[i + 1..];
    } else {
      ConcatMapSplitAt(xs[1..], i - 1, f);
      assert xs[1..][..i - 1] == xs[..i][1..];
      assert xs[1..][i - 1 + 1..] == xs[i + 1..];
      assert xs[..i][0] == xs[0];
    }
  }

  /** The block b starts at offset off of s. */
  predicate BlockAt(s: string, off: nat, b: string)
  {
    off + |b| <= |s| && s[off .. off + |b|] == b
  }

  /**
   * Element i's text stands in pre + ConcatMap(xs, f) + post right after pre and the texts
   * of the elements before it: the elements are written in order, each exactly once.
   */
  lemma ConcatMapAtIn<T>(pre: string, xs: seq<T>, post: string, i: nat, f: T -> string, off: nat, b: string)
    requires i < |xs| && off == |pre| + |ConcatMap(xs[..i], f)| && b == f(xs[i])
    ensures BlockAt(pre + ConcatMap(xs, f) + post, off, b)
  {
    ConcatMapSplitAt(xs, i, f);
    var before, after := ConcatMap(xs[..i], f), ConcatMap(xs[i + 1..], f);
    assert pre + ConcatMap(xs, f) + post == (pre + before) + b + (after + post);
    SliceMiddle(pre + before, b, after + post);
  }

  /** Element i of the first list in whole == h1 + ConcatMap(xs, f) + h2 + ConcatMap(ys, g). */
  lemma FirstListAt<T, U>(h1: string, xs: seq<T>, f: T -> string, h2: string, ys: seq<U>, g: U -> string,
                          i: nat, whole: string, off: nat, b: string)
    requires whole == h1 + ConcatMap(xs, f) + h2 + ConcatMap(ys, g)
    requires i < |xs| && off == |h1| + |ConcatMap(xs[..i], f)| && b == f(xs[i])
    ensures BlockAt(whole, off, b)
  {
    var post := h2 + ConcatMap(ys, g);
    assert whole == h1 + ConcatMap(xs, f) + post;
    ConcatMapAtIn(h1, xs, post, i, f, off, b);
  }

  /** Element i of the second list in whole == h1 + ConcatMap(xs, f) + h2 + ConcatMap(ys, g). */
  lemma SecondListAt<T, U>(h1: string, xs: seq<T>, f: T -> string, h2: string, ys: seq<U>, g: U -> string,
                           i: nat, whole: string, off: nat, b: string)
    requires whole == h1 + ConcatMap(xs, f) + h2 + ConcatMap(ys, g)
    requires i < |ys| && off == |h1| + |ConcatMap(xs, f)| + |h2| + |ConcatMap(ys[..i], g)| && b == g(ys[i])
    ensures BlockAt(whole, off, b)
  {
    ConcatMapAtIn(h1 + ConcatMap(xs, f) + h2, ys, "", i, g, off, b);
    assert whole + "" == whole;
  }

  /** s without its prefix p, if p is a prefix of s. */
  function Strip(s: string, p: string): (r: Option<string>)
    ensures r.Some? <==> p <= s
    ensures r.Some? ==> s == p + r.value
  {
    if p <= s then Some(s[|p|..]) else None
  }

  lemma StripConcat(p: string, t: string)
    ensures Strip(p + t, p) == Some(t)
  {
    assert (p + t)[..|p|] == p;
  }

  /** s split before the first occurrence of stop (or at its end when stop does not occur). */
  function Break(s: string, stop: char): (r: Parsed<string>)
    ensures r.value + r.rest == s
    ensures stop !in r.value
    ensures r.rest == [] || r.rest[0] == stop
  {
    if |s| == 0 || s[0] == stop then Parsed("", s)
    else
      var b := Break(s[1..], stop);
      AppendAssoc([s[0]], b.value, b.rest);
      assert s == [s[0]] + s[1..];
      assert stop !in [s[0]];
      Parsed([s[0]] + b.value, b.rest)
  }

  /** Break finds exactly the stop character that ends w. */
  lemma {:induction false} BreakConcat(w: string, t: string, stop: char)
    requires stop !in w
    requires t == [] || t[0] == stop
    ensures Break(w + t, stop) == Parsed(w, t)
  {
    if |w| > 0 {
      assert (w + t)[0] == w[0];
      assert (w + t)[1..] == w[1..] + t;
      BreakConcat(w[1..], t, stop);
      assert [w[0]] + w[1..] == w;
    } else {
      assert w + t == t;
    }
  }

  /** A token ended by one space: the token and the text after that space. */
  function Token(s: string): (r: Option<Parsed<string>>)
    ensures r.Some? ==> ' ' !in r.value.value && |r.value.rest| < |s|
  {
    var b := Break(s, ' ');
    if |b.rest| > 0 then Some(Parsed(b.value, b.rest[1..])) else None
  }

  lemma TokenConcat(w: string, t: string)
    requires ' ' !in w
    ensures Token(w + (" " + t)) == Some(Parsed(w, t))
  {
    BreakConcat(w, " " + t, ' ');
    assert (" " + t)[1..] == t;
  }

  /** No character of s is one of cs. */
  predicate Avoids(s: string, cs: set<char>)
  {
    forall i :: 0 <= i < |s| ==> s[i] !in cs
  }
}

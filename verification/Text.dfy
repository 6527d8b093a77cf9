/** Joining and trimming strings, with what a joined string determines. */
module Text {
  import opened Outcomes

  /** `parts.join(sep)` for a one-character separator. */
  function Join(parts: seq<string>, sep: char): string {
    if |parts| == 0 then ""
    else if |parts| == 1 then parts[0]
    else parts[0] + [sep] + Join(parts[1..], sep)
  }

  lemma JoinCons(first: string, rest: seq<string>, sep: char)
    requires |rest| > 0
    ensures Join([first] + rest, sep) == first + [sep] + Join(rest, sep)
  {
    assert ([first] + rest)[1..] == rest;
  }

  lemma {:induction false} JoinAppend(xs: seq<string>, ys: seq<string>, c: char)
    requires |xs| > 0 && |ys| > 0
    ensures Join(xs + ys, c) == Join(xs, c) + [c] + Join(ys, c)
  {
    if |xs| == 1 {
      JoinCons(xs[0], ys, c);
      assert xs == [xs[0]];
    } else {
      JoinAppend(xs[1..], ys, c);
      assert xs + ys == [xs[0]] + (xs[1..] + ys);
      JoinCons(xs[0], xs[1..] + ys, c);
      assert Join(xs, c) == xs[0] + [c] + Join(xs[1..], c);
    }
  }

  /** Joining a joined part is joining its parts. */
  lemma JoinNested(xs: seq<string>, ys: seq<string>, zs: seq<string>, c: char)
    requires |xs| > 0 && |ys| > 0
    ensures Join(xs + [Join(ys, c)] + zs, c) == Join(xs + ys + zs, c)
  {
    var y := Join(ys, c);
    JoinAppend(xs, [y], c);
    JoinAppend(xs, ys, c);
    if |zs| > 0 {
      JoinAppend(xs + [y], zs, c);
      JoinAppend(xs + ys, zs, c);
    } else {
      assert xs + [y] + zs == xs + [y] && xs + ys + zs == xs + ys;
    }
  }

  predicate Free(s: string, c: char) {
    c !in s
  }

  predicate AllFree(parts: seq<string>, c: char) {
    forall p | p in parts :: Free(p, c)
  }

  /** Text up to the first separator is determined by the whole. */
  lemma FirstPartUnique(a: string, b: string, s: string, t: string, c: char)
    requires Free(a, c) && Free(b, c)
    requires a + [c] + s == b + [c] + t
    ensures a == b && s == t
  {
    var whole := a + [c] + s;
    assert whole[|a|] == c && whole[|b|] == c;
    assert forall i | 0 <= i < |a| :: whole[i] == a[i];
    assert forall i | 0 <= i < |b| :: whole[i] == b[i];
    assert |a| == |b|;
    assert a == whole[..|a|] == b;
    assert s == whole[|a| + 1..] == t;
  }

  /** Two or more parts leave a separator in the joined text. */
  lemma JoinShowsSeparator(xs: seq<string>, c: char)
    requires |xs| > 1
    ensures !Free(Join(xs, c), c)
  {
    assert Join(xs, c)[|xs[0]|] == c;
  }

  /** A nonempty list of separator-free parts is determined by its joined text. */
  lemma {:induction false} JoinInjective(xs: seq<string>, ys: seq<string>, c: char)
    requires |xs| > 0 && |ys| > 0
    requires AllFree(xs, c) && AllFree(ys, c)
    requires Join(xs, c) == Join(ys, c)
    ensures xs == ys
  {
    if |xs| == 1 && |ys| == 1 {
    } else if |xs| == 1 {
      JoinShowsSeparator(ys, c);
      assert false;
    } else if |ys| == 1 {
      JoinShowsSeparator(xs, c);
      assert false;
    } else {
      FirstPartUnique(xs[0], ys[0], Join(xs[1..], c), Join(ys[1..], c), c);
      JoinInjective(xs[1..], ys[1..], c);
      assert xs == [xs[0]] + xs[1..];
      assert ys == [ys[0]] + ys[1..];
    }
  }

  /** White space in the sense of `String.prototype.trim`, for the characters that occur here. */
  predicate IsBlank(c: char) {
    c == ' ' || c == '\t' || c == '\n' || c == '\r'
  }

  function TrimLeft(s: string): string {
    if |s| > 0 && IsBlank(s[0]) then TrimLeft(s[1..]) else s
  }

  function TrimRight(s: string): string {
    if |s| > 0 && IsBlank(s[|s| - 1]) then TrimRight(s[..|s| - 1]) else s
  }

  function Trim(s: string): string {
    TrimRight(TrimLeft(s))
  }

  predicate Trimmed(s: string) {
    |s| > 0 ==> !IsBlank(s[0]) && !IsBlank(s[|s| - 1])
  }

  lemma {:induction false} TrimRightEnds(s: string)
    ensures var t := TrimRight(s); t <= s && (|t| > 0 ==> !IsBlank(t[|t| - 1]))
  {
    if |s| > 0 && IsBlank(s[|s| - 1]) {
      TrimRightEnds(s[..|s| - 1]);
    }
  }

  lemma {:induction false} TrimLeftStarts(s: string)
    ensures var t := TrimLeft(s); |t| > 0 ==> !IsBlank(t[0])
  {
    if |s| > 0 && IsBlank(s[0]) {
      TrimLeftStarts(s[1..]);
    }
  }

  /** Trimming leaves no blank at either end, and trimmed text is a fixed point. */
  lemma TrimIsTrimmed(s: string)
    ensures Trimmed(Trim(s))
    ensures Trimmed(s) ==> Trim(s) == s
  {
    TrimLeftStarts(s);
    TrimRightEnds(TrimLeft(s));
  }

  // ---------------------------------------------------------------- numbers

  function Digit(n: nat): char
    requires n < 10
  {
    ['0', '1', '2', '3', '4', '5', '6', '7', '8', '9'][n]
  }

  /** The decimal numeral of a natural number. */
  function Decimal(n: nat): (s: string)
    ensures |s| > 0
    ensures |s| > 1 <==> n >= 10
    ensures forall c | c in s :: '0' <= c <= '9'
  {
    if n < 10 then [Digit(n)] else Decimal(n / 10) + [Digit(n % 10)]
  }

  /** `String(n)` for a whole number. */
  function Numeral(n: int): (s: string)
    ensures forall c | c in s :: '0' <= c <= '9' || c == '-'
  {
    if n < 0 then ['-'] + Decimal(-n) else Decimal(n)
  }

  lemma DigitInjective(m: nat, n: nat)
    requires m < 10 && n < 10 && Digit(m) == Digit(n)
    ensures m == n
  {
  }

  lemma {:induction false} DecimalInjective(m: nat, n: nat)
    requires Decimal(m) == Decimal(n)
    ensures m == n
  {
    var s := Decimal(m);
    assert s[|s| - 1] == Digit(m % 10) == Digit(n % 10);
    DigitInjective(m % 10, n % 10);
    if m >= 10 {
      assert Decimal(m / 10) == s[..|s| - 1] == Decimal(n / 10);
      DecimalInjective(m / 10, n / 10);
    }
  }

  lemma NumeralInjective(m: int, n: int)
    requires Numeral(m) == Numeral(n)
    ensures m == n
  {
    var a, b := Decimal(if m < 0 then -m else m), Decimal(if n < 0 then -n else n);
    assert a[0] in a && b[0] in b;
    assert a == if m < 0 then Numeral(m)[1..] else Numeral(m);
    assert b == if n < 0 then Numeral(n)[1..] else Numeral(n);
    DecimalInjective(if m < 0 then -m else m, if n < 0 then -n else n);
  }

  // ---------------------------------------------------------------- tagged segments

  /** A tag and the value it carries, if it carries one. */
  datatype Tagged = Tagged(tag: string, value: Option<string>)

  /** `tag:value` for every field that states something, in order. */
  function Segments(fs: seq<Tagged>): seq<string> {
    if |fs| == 0 then []
    else (if fs[0].value.Some? then [fs[0].tag + [':'] + fs[0].value.value] else []) + Segments(fs[1..])
  }

  /** The same tags, in the same order, all different and without the colon that ends a tag. */
  ghost predicate SameTags(fs: seq<Tagged>, gs: seq<Tagged>) {
    && |fs| == |gs|
    && (forall i | 0 <= i < |fs| :: fs[i].tag == gs[i].tag && Free(fs[i].tag, ':'))
    && (forall i, j | 0 <= i < j < |fs| :: fs[i].tag != fs[j].tag)
  }

  /** The tag of the first stated field. */
  lemma {:induction false} FirstSegment(fs: seq<Tagged>) returns (i: nat)
    requires |Segments(fs)| > 0
    ensures i < |fs| && fs[i].value.Some? && Segments(fs)[0] == fs[i].tag + [':'] + fs[i].value.value
  {
    if fs[0].value.Some? {
      i := 0;
    } else {
      i := FirstSegment(fs[1..]);
      i := i + 1;
    }
  }

  lemma StatedOnOneSideOnly(fs: seq<Tagged>, gs: seq<Tagged>)
    requires SameTags(fs, gs) && |fs| > 0 && fs[0].value.Some? && gs[0].value.None?
    ensures |Segments(gs)| > 0 ==> Segments(fs)[0] != Segments(gs)[0]
  {
    if |Segments(gs)| > 0 {
      var i := FirstSegment(gs);
      assert i > 0 && fs[i].tag == gs[i].tag && fs[0].tag != fs[i].tag;
      if Segments(fs)[0] == Segments(gs)[0] {
        FirstPartUnique(fs[0].tag, gs[i].tag, fs[0].value.value, gs[i].value.value, ':');
      }
    }
  }

  lemma TailsShareTags(fs: seq<Tagged>, gs: seq<Tagged>)
    requires SameTags(fs, gs) && |fs| > 0
    ensures SameTags(fs[1..], gs[1..])
  {
    forall i | 0 <= i < |fs| - 1
      ensures fs[1..][i].tag == gs[1..][i].tag && Free(fs[1..][i].tag, ':')
    {
      assert fs[1..][i] == fs[i + 1] && gs[1..][i] == gs[i + 1];
    }
  }

  /** Conditionally appended segments determine which fields were stated and with what value. */
  lemma {:induction false} SegmentsInjective(fs: seq<Tagged>, gs: seq<Tagged>)
    requires SameTags(fs, gs) && Segments(fs) == Segments(gs)
    ensures fs == gs
  {
    if |fs| > 0 {
      if fs[0].value.Some? != gs[0].value.Some? {
        if fs[0].value.Some? {
          StatedOnOneSideOnly(fs, gs);
        } else {
          StatedOnOneSideOnly(gs, fs);
        }
      } else {
        if fs[0].value.Some? {
          assert Segments(fs)[0] == fs[0].tag + [':'] + fs[0].value.value;
          assert Segments(gs)[0] == gs[0].tag + [':'] + gs[0].value.value;
          FirstPartUnique(fs[0].tag, gs[0].tag, fs[0].value.value, gs[0].value.value, ':');
          assert Segments(fs)[1..] == Segments(fs[1..]);
          assert Segments(gs)[1..] == Segments(gs[1..]);
        } else {
          assert Segments(fs) == Segments(fs[1..]);
          assert Segments(gs) == Segments(gs[1..]);
        }
        TailsShareTags(fs, gs);
        SegmentsInjective(fs[1..], gs[1..]);
        assert fs == [fs[0]] + fs[1..] && gs == [gs[0]] + gs[1..];
      }
    }
  }
}

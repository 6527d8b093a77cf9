/** How two versions of one source stream compare, and when an arrival is late. */
module SourceVersions {
  import opened Outcomes

  datatype Order = Older | Newer | Equal | Unknown

  function Flip(o: Order): Order {
    match o
    case Older => Newer
    case Newer => Older
    case _ => o
  }

  // ---------------------------------------------------------------- reading a version

  predicate IsDigit(c: char) {
    '0' <= c <= '9'
  }

  predicate AllDigits(s: string) {
    |s| > 0 && forall i | 0 <= i < |s| :: IsDigit(s[i])
  }

  function SplitDots(s: string): (parts: seq<string>)
    ensures |parts| > 0
  {
    if |s| == 0 then [""]
    else if s[0] == '.' then [""] + SplitDots(s[1..])
    else
      var rest := SplitDots(s[1..]);
      [[s[0]] + rest[0]] + rest[1..]
  }

  /** Digits, then dots and digits. */
  predicate IsNumeric(s: string) {
    forall i | 0 <= i < |SplitDots(s)| :: AllDigits(SplitDots(s)[i])
  }

  function NumberOf(s: string): nat
    requires forall i | 0 <= i < |s| :: IsDigit(s[i])
  {
    if |s| == 0 then 0
    else
      var c := s[|s| - 1];
      assert IsDigit(c);
      10 * NumberOf(s[..|s| - 1]) + (c - '0') as nat
  }

  function NumbersOf(parts: seq<string>): (ns: seq<nat>)
    requires forall i | 0 <= i < |parts| :: AllDigits(parts[i])
    ensures |ns| == |parts|
  {
    seq(|parts|, i requires 0 <= i < |parts| && AllDigits(parts[i]) => NumberOf(parts[i]))
  }

  function SegmentsOf(s: string): seq<nat>
    requires IsNumeric(s)
  {
    NumbersOf(SplitDots(s))
  }

  // ---------------------------------------------------------------- numeric order

  /** A missing segment counts as zero. */
  function At(v: seq<nat>, i: nat): nat {
    if i < |v| then v[i] else 0
  }

  predicate FirstDifference(l: seq<nat>, r: seq<nat>, i: nat) {
    At(l, i) != At(r, i) && forall j | 0 <= j < i :: At(l, j) == At(r, j)
  }

  /** What an order says about two versions padded with zeros. */
  ghost predicate Means(o: Order, l: seq<nat>, r: seq<nat>) {
    match o
    case Equal => forall i: nat :: At(l, i) == At(r, i)
    case Newer => exists i: nat :: FirstDifference(l, r, i) && At(l, i) > At(r, i)
    case Older => exists i: nat :: FirstDifference(l, r, i) && At(l, i) < At(r, i)
    case Unknown => false
  }

  /** Segment by segment to the longer of the two; the first difference decides. */
  method CompareSegments(l: seq<nat>, r: seq<nat>) returns (o: Order)
    ensures Means(o, l, r)
  {
    var n := if |l| > |r| then |l| else |r|;
    for i := 0 to n
      invariant forall j | 0 <= j < i :: At(l, j) == At(r, j)
    {
      if At(l, i) != At(r, i) {
        assert FirstDifference(l, r, i);
        return if At(l, i) > At(r, i) then Newer else Older;
      }
    }
    return Equal;
  }

  /** Exactly one order holds of two segment lists. */
  lemma OneOrder(l: seq<nat>, r: seq<nat>, o: Order, p: Order)
    requires Means(o, l, r) && Means(p, l, r)
    ensures o == p
  {
    if o != Equal {
      var i: nat :| FirstDifference(l, r, i) && (if o == Newer then At(l, i) > At(r, i) else At(l, i) < At(r, i));
      if p != Equal {
        var j: nat :| FirstDifference(l, r, j) && (if p == Newer then At(l, j) > At(r, j) else At(l, j) < At(r, j));
        assert i == j;
      }
    }
  }

  lemma OrderFlips(l: seq<nat>, r: seq<nat>, o: Order)
    requires Means(o, l, r)
    ensures Means(Flip(o), r, l)
  {
    if o == Newer || o == Older {
      var i: nat :| FirstDifference(l, r, i) && (if o == Newer then At(l, i) > At(r, i) else At(l, i) < At(r, i));
      assert FirstDifference(r, l, i);
    }
  }

  /** Newer than newer is newer; a missing zero segment changes nothing. */
  lemma OrderComposes(a: seq<nat>, b: seq<nat>, c: seq<nat>, o: Order, p: Order)
    requires Means(o, a, b) && Means(p, b, c) && (o == p || p == Equal)
    ensures Means(o, a, c)
  {
    if o != Equal {
      var i: nat :| FirstDifference(a, b, i) && (if o == Newer then At(a, i) > At(b, i) else At(a, i) < At(b, i));
      if p == Equal {
        assert FirstDifference(a, c, i);
      } else {
        var j: nat :| FirstDifference(b, c, j) && (if o == Newer then At(b, j) > At(c, j) else At(b, j) < At(c, j));
        var k := if i < j then i else j;
        assert FirstDifference(a, c, k);
      }
    }
  }

  // ---------------------------------------------------------------- any two versions

  /** What the comparison claims; `instant` reads an ISO-8601 timestamp. */
  ghost predicate Claims(o: Order, incoming: string, existing: string, instant: string -> Option<int>) {
    if incoming == existing then o == Equal
    else if IsNumeric(incoming) && IsNumeric(existing) then Means(o, SegmentsOf(incoming), SegmentsOf(existing))
    else if instant(incoming).Some? && instant(existing).Some? then
      var a, b := instant(incoming).value, instant(existing).value;
      o == (if a == b then Equal else if a > b then Newer else Older)
    else o == Unknown
  }

  method Compare(incoming: string, existing: string, instant: string -> Option<int>) returns (o: Order)
    ensures Claims(o, incoming, existing, instant)
  {
    if incoming == existing {
      return Equal;
    }
    if IsNumeric(incoming) && IsNumeric(existing) {
      o := CompareSegments(SegmentsOf(incoming), SegmentsOf(existing));
      return;
    }
    var a, b := instant(incoming), instant(existing);
    if a.Some? && b.Some? {
      return if a.value == b.value then Equal else if a.value > b.value then Newer else Older;
    }
    return Unknown;
  }

  /** Swapping the two versions swaps the claim, and there is only one claim. */
  lemma ClaimFlips(o: Order, p: Order, incoming: string, existing: string, instant: string -> Option<int>)
    requires Claims(o, incoming, existing, instant) && Claims(p, existing, incoming, instant)
    ensures p == Flip(o)
  {
    if incoming != existing && IsNumeric(incoming) && IsNumeric(existing) {
      OrderFlips(SegmentsOf(incoming), SegmentsOf(existing), o);
      OneOrder(SegmentsOf(existing), SegmentsOf(incoming), p, Flip(o));
    }
  }

  // ---------------------------------------------------------------- late arrivals

  /** Late exactly when some version on record is proven newer, in whatever order the records are read. */
  method ResolveOrder(incoming: string, siblings: seq<string>, instant: string -> Option<int>)
    returns (order: Option<Order>, late: bool)
    ensures late <==> exists i | 0 <= i < |siblings| :: Claims(Older, incoming, siblings[i], instant)
    ensures order.None? <==> |siblings| == 0
    ensures order.Some? && order != Some(Equal) ==>
              exists i | 0 <= i < |siblings| ::
                Claims(order.value, incoming, siblings[i], instant)
                && forall j | i < j < |siblings| :: Claims(Equal, incoming, siblings[j], instant)
    ensures order == Some(Equal) <==>
              |siblings| > 0 && forall i | 0 <= i < |siblings| :: Claims(Equal, incoming, siblings[i], instant)
  {
    hide Claims;
    ghost var last := 0;
    order, late := None, false;
    for k := 0 to |siblings|
      invariant late <==> exists i | 0 <= i < k :: Claims(Older, incoming, siblings[i], instant)
      invariant order.None? <==> k == 0
      invariant order.Some? && order != Some(Equal) ==>
                  last < k && Claims(order.value, incoming, siblings[last], instant)
                  && forall j | last < j < k :: Claims(Equal, incoming, siblings[j], instant)
      invariant order == Some(Equal) <==> k > 0 && forall i | 0 <= i < k :: Claims(Equal, incoming, siblings[i], instant)
    {
      var o := Compare(incoming, siblings[k], instant);
      ClaimIsOne(incoming, siblings[k], instant, o);
      if order.None? || o != Equal {
        order := Some(o);
        last := k;
      }
      if o == Older {
        late := true;
      }
    }
  }

  lemma ClaimIsOne(incoming: string, existing: string, instant: string -> Option<int>, o: Order)
    requires Claims(o, incoming, existing, instant)
    ensures forall p | Claims(p, incoming, existing, instant) :: p == o
  {
    forall p | Claims(p, incoming, existing, instant)
      ensures p == o
    {
      if incoming != existing && IsNumeric(incoming) && IsNumeric(existing) {
        OneOrder(SegmentsOf(incoming), SegmentsOf(existing), o, p);
      }
    }
  }
}

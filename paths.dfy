/**
 * The address of an operation: `basePointer + "/" + path.join("/")`, where the path stack
 * holds object keys and array indices and a number joins as its decimal text.
 */
module Paths {
  import opened Deltas

  /** The text of one decimal digit. */
  function Digit(d: nat): char
    requires d < 10
  {
    "0123456789"[d]
  }

  /** The value of a digit character. */
  function DigitValue(c: char): nat
    requires '0' <= c <= '9'
  {
    (c - '0') as nat
  }

  /** The decimal text JavaScript gives a non-negative integer when it joins it into a string. */
  function DecimalString(n: nat): (s: string)
    ensures |s| > 0
    ensures forall i :: 0 <= i < |s| ==> '0' <= s[i] <= '9'
    ensures s[0] == '0' ==> s == "0"
    decreases n
  {
    if n < 10 then [Digit(n)] else DecimalString(n / 10) + [Digit(n % 10)]
  }

  /** The number a string of decimal digits denotes. */
  function DecimalValue(s: string): nat
    requires forall i :: 0 <= i < |s| ==> '0' <= s[i] <= '9'
  {
    if s == [] then 0 else 10 * DecimalValue(s[..|s| - 1]) + DigitValue(s[|s| - 1])
  }

  /** Decimal text is read back as the number it was written from. */
  lemma {:induction false} DecimalRoundTrip(n: nat)
    ensures DecimalValue(DecimalString(n)) == n
    decreases n
  {
    var s := DecimalString(n);
    if n >= 10 {
      DecimalRoundTrip(n / 10);
      assert s[..|s| - 1] == DecimalString(n / 10);
    }
  }

  /** The text a path segment contributes to the joined path. */
  function SegmentText(seg: Segment): string {
    match seg
    case Key(name) => name
    case Index(i) => DecimalString(i)
  }

  function Texts(path: seq<Segment>): (ts: seq<string>)
    ensures |ts| == |path|
    ensures forall i :: 0 <= i < |path| ==> ts[i] == SegmentText(path[i])
  {
    seq(|path|, i requires 0 <= i < |path| => SegmentText(path[i]))
  }

  /** `Array.prototype.join("/")`: the parts with one separator between neighbours. */
  function Join(parts: seq<string>): string {
    if |parts| == 0 then ""
    else if |parts| == 1 then parts[0]
    else parts[0] + "/" + Join(parts[1..])
  }

  /** The address of the position a path stack denotes, below the base pointer. */
  function Render(base: string, path: seq<Segment>): string {
    base + "/" + Join(Texts(path))
  }

  /** Appending a part to a join appends one separator and the part (none on an empty join). */
  lemma {:induction false} JoinPush(parts: seq<string>, last: string)
    ensures Join(parts + [last]) == if parts == [] then last else Join(parts) + "/" + last
  {
    if |parts| >= 2 {
      assert (parts + [last])[1..] == parts[1..] + [last];
      JoinPush(parts[1..], last);
    } else if |parts| == 1 {
      assert (parts + [last])[1..] == [last];
    }
  }

  /** Pushing a segment extends the rendered address by that segment's text. */
  lemma RenderPush(base: string, path: seq<Segment>, seg: Segment)
    ensures Render(base, path + [seg])
         == Render(base, path) + (if path == [] then "" else "/") + SegmentText(seg)
  {
    assert Texts(path + [seg]) == Texts(path) + [SegmentText(seg)];
    JoinPush(Texts(path), SegmentText(seg));
  }

  predicate SlashFree(s: string) {
    '/' !in s
  }

  /** The position of the first "/" in `s`, or its length when there is none. */
  function FirstSlash(s: string): nat {
    if s == [] || s[0] == '/' then 0 else 1 + FirstSlash(s[1..])
  }

  lemma {:induction false} FirstSlashAfter(a: string, rest: string)
    requires SlashFree(a)
    ensures FirstSlash(a + "/" + rest) == |a|
  {
    if a != [] {
      assert a[0] in a;
      assert (a + "/" + rest)[1..] == a[1..] + "/" + rest;
      FirstSlashAfter(a[1..], rest);
    }
  }

  /** Parts without a separator in them are recovered from their join, given their number. */
  lemma {:induction false} JoinInjective(xs: seq<string>, ys: seq<string>)
    requires |xs| == |ys|
    requires forall i :: 0 <= i < |xs| ==> SlashFree(xs[i])
    requires forall i :: 0 <= i < |ys| ==> SlashFree(ys[i])
    requires Join(xs) == Join(ys)
    ensures xs == ys
  {
    if |xs| >= 2 {
      var a, b, j := xs[0], ys[0], Join(xs);
      assert SlashFree(a) && SlashFree(b);
      // The first separator of the join ends the first part, on both sides.
      // The first separator of the join ends the first part, on both sides.
      FirstSlashAfter(a, Join(xs[1..]));
      FirstSlashAfter(b, Join(ys[1..]));
      assert a == j[..|a|] == b;
      assert Join(xs[1..]) == j[|a| + 1..] == Join(ys[1..]);
      JoinInjective(xs[1..], ys[1..]);
      assert xs == [a] + xs[1..] && ys == [b] + ys[1..];
    }
  }

  /**
   * Two paths of the same depth whose keys hold no "/" render to the same address only when
   * their segments have the same texts.
   */
  lemma RenderInjective(base: string, p: seq<Segment>, q: seq<Segment>)
    requires |p| == |q|
    requires forall i :: 0 <= i < |p| && p[i].Key? ==> SlashFree(p[i].name)
    requires forall i :: 0 <= i < |q| && q[i].Key? ==> SlashFree(q[i].name)
    requires Render(base, p) == Render(base, q)
    ensures Texts(p) == Texts(q)
  {
    forall ps: seq<Segment>, i | ps in {p, q} && 0 <= i < |ps|
      ensures SlashFree(Texts(ps)[i])
    {
      if ps[i].Index? {
        var s := DecimalString(ps[i].i);
        assert forall k :: 0 <= k < |s| ==> s[k] != '/';
      }
    }
    assert Join(Texts(p)) == Render(base, p)[|base| + 1..];
    assert Join(Texts(q)) == Render(base, q)[|base| + 1..];
    JoinInjective(Texts(p), Texts(q));
  }

  /** Keys are not escaped: a key holding "/" renders like two nested keys. */
  lemma KeySlashCollision(base: string, a: string, b: string)
    ensures Render(base, [Key(a + "/" + b)]) == Render(base, [Key(a), Key(b)])
  {
    var ts := Texts([Key(a), Key(b)]);
    assert ts == [a, b] && ts[1..] == [b];
    assert Join(ts) == a + "/" + b;
    assert Texts([Key(a + "/" + b)]) == [a + "/" + b];
    assert (base + "/" + a) + "/" + b == base + "/" + (a + "/" + b);
  }

  /** An empty key one level down renders like the root itself. */
  lemma EmptyKeyCollision(base: string)
    ensures Render(base, [Key("")]) == Render(base, [])
  {
  }
}

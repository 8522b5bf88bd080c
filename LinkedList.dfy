/**
 * The recursive singly-linked list of unsigned 32-bit integers: a list is either
 * `Cons(head, tail)`, a value in front of the rest of the list, or `Nil`, the end.
 *
 * Every operation is a pure function of list values: `prepend` takes its list by
 * value and builds a new node around it, and `len` and `stringify` only read.
 * `Elements` is the abstract view (the values front to back) against which the
 * operations are specified.
 */
module LinkedList {
  import opened Wrappers
  import Decimal

  const U32_MODULUS: int := 0x1_0000_0000

  newtype u32 = x: int | 0 <= x < U32_MODULUS

  datatype List = Cons(head: u32, tail: List) | Nil

  /** The values of the list, front to back. */
  function Elements(l: List): seq<u32> {
    match l
    case Nil => []
    case Cons(h, t) => [h] + Elements(t)
  }

  /** A list is determined by its values: `Elements` loses nothing. */
  lemma {:induction false} ElementsInjective(a: List, b: List)
    requires Elements(a) == Elements(b)
    ensures a == b
  {
    match a
    case Nil =>
    case Cons(h, t) =>
      assert Elements(b)[0] == h;
      assert Elements(t) == Elements(a)[1..] == Elements(b)[1..] == Elements(b.tail);
      ElementsInjective(t, b.tail);
  }

  /** `List::new`: the empty list. */
  function New(): (l: List)
    ensures Elements(l) == []
    ensures Len(l) == 0
    ensures Stringify(l) == "Nil"
  {
    Nil
  }

  /** `prepend`: the new value in front, the old list behind it unchanged. */
  function Prepend(l: List, elem: u32): (r: List)
    ensures Elements(r) == [elem] + Elements(l)
  {
    Cons(elem, l)
  }

  /**
   * `len`: the number of nodes. The source adds `1 + tail.len()` in `u32`; this
   * is that addition as an optimised build performs it, wrapping modulo 2^32.
   */
  function Len(l: List): (n: u32)
    ensures n as int == |Elements(l)| % U32_MODULUS
    ensures |Elements(l)| < U32_MODULUS ==> n as int == |Elements(l)|
  {
    match l
    case Nil => 0
    case Cons(_, t) => ((1 + Len(t) as int) % U32_MODULUS) as u32
  }

  /** `stringify`: each value in decimal followed by ", ", then "Nil". */
  function Stringify(l: List): (s: string)
    ensures s == "Nil" <==> l.Nil?
  {
    match l
    case Nil => "Nil"
    case Cons(h, t) => Decimal.Render(h as nat) + ", " + Stringify(t)
  }

  /** The number of occurrences of the separator ", " in `s`. */
  function SeparatorCount(s: string): nat {
    if |s| < 2 then 0
    else (if s[0] == ',' && s[1] == ' ' then 1 else 0) + SeparatorCount(s[1..])
  }

  /** The index of the first comma in `s`, or `|s|` when there is none. */
  function FirstComma(s: string): (k: nat)
    ensures k <= |s|
    ensures forall i :: 0 <= i < k ==> s[i] != ','
    ensures k < |s| ==> s[k] == ','
  {
    if |s| == 0 || s[0] == ',' then 0 else 1 + FirstComma(s[1..])
  }

  /**
   * Reads a rendering back into a list: "Nil", or a canonical decimal that fits
   * in `u32`, then ", ", then the rendering of the tail.
   */
  function ParseList(s: string): (r: Option<List>)
    decreases |s|
  {
    if s == "Nil" then Some(Nil)
    else
      var k := FirstComma(s);
      if k + 2 > |s| || s[k + 1] != ' ' then None
      else
        match Decimal.Parse(s[..k])
        case None => None
        case Some(v) =>
          if v >= U32_MODULUS then None
          else
            match ParseList(s[k + 2..])
            case None => None
            case Some(t) => Some(Cons(v as u32, t))
  }

  /** Left-to-right fold of `prepend` over `xs`, as a caller rebinding its list does. */
  function PrependAll(l: List, xs: seq<u32>): (r: List)
    ensures |Elements(r)| == |xs| + |Elements(l)|
    decreases |xs|
  {
    if xs == [] then l else PrependAll(Prepend(l, xs[0]), xs[1..])
  }

  function Reverse<T>(xs: seq<T>): (r: seq<T>)
    ensures |r| == |xs|
    ensures forall i :: 0 <= i < |xs| ==> r[i] == xs[|xs| - 1 - i]
  {
    if xs == [] then [] else Reverse(xs[1..]) + [xs[0]]
  }

  // ---------------------------------------------------------------- length

  /**
   * A prepend adds one to the length in `u32` arithmetic; the result is exactly
   * one more precisely when the old length is below the largest `u32`.
   */
  lemma LenPrepend(l: List, elem: u32)
    ensures Len(Prepend(l, elem)) as int == (1 + Len(l) as int) % U32_MODULUS
    ensures Len(Prepend(l, elem)) as int == 1 + Len(l) as int <==> Len(l) as int < U32_MODULUS - 1
  {
  }

  /** Folding prepends onto a list puts the values in front, last-prepended first. */
  lemma {:induction false} PrependAllElements(l: List, xs: seq<u32>)
    ensures Elements(PrependAll(l, xs)) == Reverse(xs) + Elements(l)
    decreases |xs|
  {
    if xs != [] {
      PrependAllElements(Prepend(l, xs[0]), xs[1..]);
      assert Reverse(xs) + Elements(l) == Reverse(xs[1..]) + ([xs[0]] + Elements(l));
    }
  }

  /** A list built from `new()` by `n < 2^32` prepends has length `n`. */
  lemma LenAfterPrepends(xs: seq<u32>)
    requires |xs| < U32_MODULUS
    ensures Len(PrependAll(New(), xs)) as int == |xs|
    ensures Elements(PrependAll(New(), xs)) == Reverse(xs)
  {
    PrependAllElements(New(), xs);
    assert Reverse(xs) + [] == Reverse(xs);
  }

  // ------------------------------------------------------------- rendering

  /** Every rendering ends with the terminal "Nil". */
  lemma {:induction false} StringifyEndsWithNil(l: List)
    ensures |Stringify(l)| >= 3 && Stringify(l)[|Stringify(l)| - 3..] == "Nil"
  {
    match l
    case Nil =>
    case Cons(h, t) =>
      var rest := Stringify(t);
      StringifyEndsWithNil(t);
      var s := Decimal.Render(h as nat) + ", " + rest;
      assert s[|s| - 3..] == rest[|rest| - 3..];
  }

  lemma {:induction false} SeparatorCountAfterDigits(d: string, rest: string)
    requires forall i :: 0 <= i < |d| ==> d[i] != ','
    ensures SeparatorCount(d + ", " + rest) == 1 + SeparatorCount(rest)
    decreases |d|
  {
    if d == [] {
      assert (d + ", " + rest)[1..] == " " + rest;
      assert (" " + rest)[1..] == rest;
    } else {
      assert (d + ", " + rest)[1..] == d[1..] + ", " + rest;
      SeparatorCountAfterDigits(d[1..], rest);
    }
  }

  /** The rendering holds exactly one ", " per node. */
  lemma {:induction false} StringifySeparators(l: List)
    ensures SeparatorCount(Stringify(l)) == |Elements(l)|
  {
    match l
    case Nil =>
      assert "Nil"[1..] == "il" && "il"[1..] == "l";
    case Cons(h, t) =>
      SeparatorCountAfterDigits(Decimal.Render(h as nat), Stringify(t));
      StringifySeparators(t);
  }

  lemma FirstCommaAt(d: string, rest: string)
    requires forall i :: 0 <= i < |d| ==> d[i] != ','
    ensures FirstComma(d + ", " + rest) == |d|
  {
    var s := d + ", " + rest;
    var k := FirstComma(s);
    assert s[|d|] == ',';
  }

  /** Reading the rendering back gives the list: `stringify` loses nothing. */
  lemma {:induction false} ParseStringify(l: List)
    ensures ParseList(Stringify(l)) == Some(l)
  {
    match l
    case Nil =>
    case Cons(h, t) =>
      var d := Decimal.Render(h as nat);
      var s := Stringify(l);
      assert s == d + ", " + Stringify(t);
      assert s[0] == d[0] && Decimal.IsDigit(s[0]);
      FirstCommaAt(d, Stringify(t));
      assert s[..|d|] == d;
      assert s[|d| + 1] == ' ';
      assert s[|d| + 2..] == Stringify(t);
      Decimal.ParseRender(h as nat);
      ParseStringify(t);
  }

  /** Every string `ParseList` accepts is the rendering of the list it yields. */
  lemma {:induction false} StringifyParse(s: string, l: List)
    requires ParseList(s) == Some(l)
    ensures Stringify(l) == s
    decreases |s|
  {
    if s != "Nil" {
      var k := FirstComma(s);
      var v := Decimal.Value(s[..k]);
      Decimal.RenderParse(s[..k], v);
      StringifyParse(s[k + 2..], l.tail);
      assert s == s[..k] + ", " + s[k + 2..];
    }
  }

  /** Distinct lists render differently. */
  lemma StringifyInjective(a: List, b: List)
    requires Stringify(a) == Stringify(b)
    ensures a == b
  {
    ParseStringify(a);
    ParseStringify(b);
  }

  // -------------------------------------------------------------- examples

  /** One prepend onto `new()`: one node, rendered as the value then ", Nil". */
  lemma SinglePrepend(elem: u32)
    ensures Len(Prepend(New(), elem)) == 1
    ensures Stringify(Prepend(New(), elem)) == Decimal.Render(elem as nat) + ", Nil"
    ensures Stringify(Prepend(New(), 5)) == "5, Nil"
  {
    assert Decimal.Render(5) == "5";
  }

  /** The sequence in `main`: prepend 1, 2 and 3 onto `new()`. */
  lemma MainExample()
    ensures Len(Prepend(Prepend(Prepend(New(), 1), 2), 3)) == 3
    ensures Stringify(Prepend(Prepend(Prepend(New(), 1), 2), 3)) == "3, 2, 1, Nil"
  {
    assert Decimal.Render(1) == "1" && Decimal.Render(2) == "2" && Decimal.Render(3) == "3";
    assert Stringify(Cons(1, Nil)) == "1, Nil";
    assert Stringify(Cons(2, Cons(1, Nil))) == "2, 1, Nil";
  }
}

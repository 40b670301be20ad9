/** An immutable singly-linked list of 32-bit integers: `Cons(value, rest)` or `Nil`.
    Every operation is specified against `Elems`, the sequence of values the list
    holds from head to tail. */
module RustList {
  import Decimal

  /** Rust's `i32`. No arithmetic is done on the values, so the bound only
      records what a list may hold. */
  type i32 = x: int | -0x8000_0000 <= x < 0x8000_0000

  datatype List = Cons(head: i32, tail: List) | Nil

  /** The values of `l`, head first: the abstraction every contract uses. */
  function Elems(l: List): (s: seq<i32>)
  {
    match l
    case Cons(h, t) => [h] + Elems(t)
    case Nil => []
  }

  /** Reference construction from a sequence: the list whose values are `s`. */
  function OfSeq(s: seq<i32>): (r: List)
    ensures Elems(r) == s
  {
    if s == [] then Nil else Cons(s[0], OfSeq(s[1..]))
  }

  /** `OfSeq` undoes `Elems`: a list is determined by its values. */
  lemma {:induction false} OfSeqElems(l: List)
    ensures OfSeq(Elems(l)) == l
  {
    match l
    case Cons(h, t) =>
      assert Elems(l)[1..] == Elems(t);
      OfSeqElems(t);
    case Nil =>
  }

  lemma ElemsInjective(a: List, b: List)
    requires Elems(a) == Elems(b)
    ensures a == b
  {
    OfSeqElems(a);
    OfSeqElems(b);
  }

  // ---------------------------------------------------------------------------
  // Construction and structural recursion

  function New(): (r: List)
    ensures Elems(r) == []
  {
    Nil
  }

  /** Adds `x` after the last value. */
  function Append(l: List, x: i32): (r: List)
    ensures Elems(r) == Elems(l) + [x]
  {
    match l
    case Cons(t, l1) =>
      var t1 := Append(l1, x);
      Cons(t, t1)
    case Nil => Cons(x, Nil)
  }

  /** The values of `l` followed by the values of `l2`. */
  function Concat(l: List, l2: List): (r: List)
    ensures Elems(r) == Elems(l) + Elems(l2)
  {
    match l
    case Nil => l2
    case Cons(t, t1) =>
      var newList := Concat(t1, l2);
      Cons(t, newList)
  }

  /** The `+` operator on lists. */
  function Add(l: List, rhs: List): (r: List)
    ensures Elems(r) == Elems(l) + Elems(rhs)
  {
    Concat(l, rhs)
  }

  /** Adds `x` before the first value; the old list becomes the tail. */
  function Push(l: List, x: i32): (r: List)
    ensures r.Cons? && r.head == x && r.tail == l
    ensures Elems(r) == [x] + Elems(l)
  {
    match l
    case Cons(_, _) => Cons(x, l)
    case Nil => Cons(x, Nil)
  }

  /** Membership; the recursion stops at the first node holding `x`. */
  function Find(l: List, x: i32): (r: bool)
    ensures r <==> x in Elems(l)
  {
    match l
    case Cons(v, t) => if v == x then true else Find(t, x)
    case Nil => false
  }

  /** The number of nodes. */
  function Len(l: List): (r: nat)
    ensures r == |Elems(l)|
  {
    match l
    case Cons(_, t) => 1 + Len(t)
    case Nil => 0
  }

  /** `Nil` is a left and a right identity of `Concat`. */
  lemma {:induction false} ConcatIdentity(l: List)
    ensures Concat(Nil, l) == l
    ensures Concat(l, Nil) == l
  {
    match l
    case Cons(_, t) => ConcatIdentity(t);
    case Nil =>
  }

  /** Lengths add up under `Concat`, and append and push add exactly one node. */
  lemma LenLaws(l: List, l2: List, x: i32)
    ensures Len(Concat(l, l2)) == Len(l) + Len(l2)
    ensures Len(Append(l, x)) == Len(l) + 1
    ensures Len(Push(l, x)) == Len(l) + 1
    ensures Len(New()) == 0
  {
  }

  /** An appended value is found, and everything found before still is. */
  lemma FindAppend(l: List, x: i32, y: i32)
    ensures Find(Append(l, x), x)
    ensures Find(Append(l, x), y) <==> Find(l, y) || y == x
  {
  }

  // ---------------------------------------------------------------------------
  // Linearisation into a growable vector, and rebuilding from one

  /** Rust's `Vec<i32>`, as far as the list uses it: a growable buffer that
      values are pushed onto. */
  class Vec {
    var elems: seq<i32>

    constructor ()
      ensures elems == []
    {
      elems := [];
    }

    method Push(x: i32)
      modifies this
      ensures elems == old(elems) + [x]
    {
      elems := elems + [x];
    }
  }

  /** Pushes the values of `l`, head first, onto the accumulator `v`. */
  method AsMutVecInto(l: List, v: Vec)
    modifies v
    ensures v.elems == old(v.elems) + Elems(l)
    decreases l
  {
    match l
    case Cons(h, t) =>
      v.Push(h);
      AsMutVecInto(t, v);
    case Nil =>
  }

  /** The values of `l` in a fresh vector. */
  method AsMutVec(l: List) returns (r: seq<i32>)
    ensures r == Elems(l)
  {
    var v := new Vec();
    AsMutVecInto(l, v);
    r := v.elems;
  }

  /** Builds a list by appending the values of `vs` one after another. */
  method From(vs: seq<i32>) returns (l: List)
    ensures Elems(l) == vs
    ensures l == OfSeq(vs)
  {
    l := New();
    for i := 0 to |vs|
      invariant Elems(l) == vs[..i]
    {
      assert vs[..i + 1] == vs[..i] + [vs[i]];
      l := Append(l, vs[i]);
    }
    assert vs[..|vs|] == vs;
    ElemsInjective(l, OfSeq(vs));
  }

  /** Rebuilding a list from a vector and linearising it gives the vector back. */
  method FromThenAsMutVec(vs: seq<i32>) returns (r: seq<i32>)
    ensures r == vs
  {
    var l := From(vs);
    r := AsMutVec(l);
  }

  /** The first `n` values and the rest, as two lists. `split_at` faults when
      `n` exceeds the length, so callers must keep `n` in range. */
  method Split(l: List, n: nat) returns (left: List, right: List)
    requires n <= Len(l)
    ensures Elems(left) == Elems(l)[..n]
    ensures Elems(right) == Elems(l)[n..]
    ensures Concat(left, right) == l
  {
    var t := AsMutVec(l);
    var lo, hi := t[..n], t[n..];
    left := From(lo);
    right := From(hi);
    assert lo + hi == t;
    ElemsInjective(Concat(left, right), l);
  }

  // ---------------------------------------------------------------------------
  // Equality

  /** Structural equality: two `Cons` nodes are equal when their values and
      tails are; otherwise the two lists are equal exactly when both are `Nil`. */
  function Eq(a: List, b: List): (r: bool)
    ensures r <==> Elems(a) == Elems(b)
    ensures r <==> a == b
  {
    match (a, b)
    case (Cons(l0, l1), Cons(r0, r1)) =>
      assert Elems(a)[1..] == Elems(l1) && Elems(b)[1..] == Elems(r1);
      l0 == r0 && Eq(l1, r1)
    case _ => a.Nil? == b.Nil?
  }

  function Ne(a: List, b: List): (r: bool)
    ensures r <==> Elems(a) != Elems(b)
    ensures r <==> a != b
  {
    !Eq(a, b)
  }

  /** A non-empty list never equals the empty one. */
  lemma ConsNeverNil(h: i32, t: List)
    ensures !Eq(Cons(h, t), Nil) && !Eq(Nil, Cons(h, t))
    ensures Ne(Cons(h, t), Nil)
  {
  }

  // ---------------------------------------------------------------------------
  // Rendering

  /** Each value followed by a comma, then the terminator `NIL`. */
  function Render(l: List): (s: string)
    ensures |s| >= 3 && s[|s| - 3] == 'N' && s[|s| - 2] == 'I' && s[|s| - 1] == 'L'
  {
    match l
    case Cons(x1, t1) =>
      var rest := Render(t1);
      Decimal.IntToDecimal(x1) + "," + rest
    case Nil => "NIL"
  }

  /** Reference format of the rendered values, built from the last value back:
      each value's decimal text followed by a comma. */
  function Fields(s: seq<i32>): (r: string)
  {
    if s == [] then "" else Fields(s[..|s| - 1]) + Decimal.IntToDecimal(s[|s| - 1]) + ","
  }

  lemma Regroup(a: string, b: string, c: string)
    ensures (a + "," + b) + c + "," == a + "," + (b + c + ",")
  {
  }

  /** Adding a value in front adds its field in front. */
  lemma {:induction false} FieldsCons(h: i32, s: seq<i32>)
    ensures Fields([h] + s) == Decimal.IntToDecimal(h) + "," + Fields(s)
    decreases |s|
  {
    var hs := [h] + s;
    var d := Decimal.IntToDecimal(h);
    if s == [] {
      assert hs[..0] == [];
    } else {
      var init, e := s[..|s| - 1], Decimal.IntToDecimal(s[|s| - 1]);
      assert hs[..|hs| - 1] == [h] + init;
      FieldsCons(h, init);
      calc {
        Fields(hs);
        Fields([h] + init) + e + ",";
        (d + "," + Fields(init)) + e + ",";
        { Regroup(d, Fields(init), e); }
        d + "," + (Fields(init) + e + ",");
        d + "," + Fields(s);
      }
    }
  }

  /** The exact rendering: the field `v,` of each value in order, then `NIL`. */
  lemma {:induction false} RenderFormat(l: List)
    ensures Render(l) == Fields(Elems(l)) + "NIL"
  {
    match l
    case Cons(x1, t1) =>
      RenderFormat(t1);
      FieldsCons(x1, Elems(t1));
    case Nil =>
  }

  /** The index of the first comma in `s`, or `|s|` when there is none. */
  function CommaIndex(s: string): (k: nat)
    ensures k <= |s|
    ensures k < |s| ==> s[k] == ','
    ensures forall j :: 0 <= j < k ==> s[j] != ','
  {
    if s == [] then 0
    else if s[0] == ',' then 0
    else 1 + CommaIndex(s[1..])
  }

  /** Reads a rendering back: the comma-terminated fields before the final one
      are the values; the field after the last comma (`NIL`) carries none. */
  function ParseRendering(s: string): (vs: seq<int>)
    decreases |s|
  {
    var k := CommaIndex(s);
    if k == |s| then []
    else [Decimal.ParseInt(s[..k])] + ParseRendering(s[k + 1..])
  }

  /** A comma-free field followed by a comma is read off as one field. */
  lemma ParseField(d: string, rest: string)
    requires ',' !in d
    ensures ParseRendering(d + "," + rest) == [Decimal.ParseInt(d)] + ParseRendering(rest)
  {
    var s := d + "," + rest;
    var k := CommaIndex(s);
    assert s[|d|] == ',';
    assert k == |d|;
    assert s[..k] == d;
    assert s[k + 1..] == rest;
  }

  /** The rendering lists every value of `l` in order: reading it back gives `Elems(l)`. */
  lemma {:induction false} RenderRoundTrip(l: List)
    ensures ParseRendering(Render(l)) == Elems(l)
  {
    match l
    case Cons(x1, t1) =>
      ParseField(Decimal.IntToDecimal(x1), Render(t1));
      RenderRoundTrip(t1);
    case Nil =>
      assert CommaIndex("NIL") == 3;
  }

  /** Different lists have different renderings. */
  lemma RenderInjective(a: List, b: List)
    requires Render(a) == Render(b)
    ensures a == b
  {
    RenderRoundTrip(a);
    RenderRoundTrip(b);
    ElemsInjective(a, b);
  }

  // ---------------------------------------------------------------------------
  // The unit tests' scenarios, stated on the reference construction `OfSeq`

  lemma TestScenarios()
    ensures Eq(Append(New(), 5), OfSeq([5]))
    ensures Eq(Append(OfSeq([1, 2, 3]), 4), OfSeq([1, 2, 3, 4]))
    ensures Eq(Add(New(), OfSeq([1, 2, 3])), OfSeq([1, 2, 3]))
    ensures Eq(Add(OfSeq([1, 2]), OfSeq([3])), OfSeq([1, 2, 3]))
    ensures Eq(Push(OfSeq([1, 2]), 0), OfSeq([0, 1, 2]))
    ensures Eq(Push(New(), 0), OfSeq([0]))
    ensures Find(OfSeq([1, 2, 3, 4]), 1)
    ensures !Find(OfSeq([1, 2, 3, 4]), 9)
    ensures Len(OfSeq([1, 2, 3])) == 3
    ensures Len(New()) == 0
    ensures Elems(OfSeq([1, 2, 3])) == [1, 2, 3]
    ensures Elems(New()) == []
  {
    assert [1, 2, 3] + [4] == [1, 2, 3, 4];
    assert [1, 2] + [3] == [1, 2, 3];
    assert [0] + [1, 2] == [0, 1, 2];
  }

  /** The rendering format on a concrete list and on the empty one. */
  lemma RenderExamples()
    ensures Render(OfSeq([1, 2, 3])) == "1,2,3,NIL"
    ensures Render(Nil) == "NIL"
  {
    assert [1, 2, 3][1..] == [2, 3] && [2, 3][1..] == [3] && [3][1..] == [];
    assert Decimal.IntToDecimal(1) == "1";
    assert Decimal.IntToDecimal(2) == "2";
    assert Decimal.IntToDecimal(3) == "3";
    assert OfSeq([1, 2, 3]) == Cons(1, Cons(2, Cons(3, Nil)));
    assert Render(Cons(3, Nil)) == "3,NIL";
    assert Render(Cons(2, Cons(3, Nil))) == "2,3,NIL";
  }
}

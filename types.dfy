/** Structural type equality, `CheckIfTypesAreEqualThisFunctionHasALongName` in
    `PointerType` and `ArrayType`, and `Equals` in `BaseType` and `StructType`. A
    null `other` makes every one of them return false; the callers below handle
    that case before calling `Equal`. */
module Types {
  import opened Ast

  /** `a.CheckIfTypesAreEqualThisFunctionHasALongName(b)`, dispatched on `a`. */
  function Equal(a: Type, b: Type): bool {
    match a
    case Base(x) => b == Base(x)
    case PointerType(_, p) => b.PointerType? && Equal(p, b.pointerToType)
    case ArrayType(_, t, n) => b.ArrayType? && b.length == n && Equal(t, b.elem)
    case StructType(_, name) => b.StructType? && b.structType == name
  }

  /** The shape of a type: the type with every allocation site forgotten. */
  datatype Shape =
    | BaseShape(base: BaseType)
    | PointerShape(to: Shape)
    | ArrayShape(elem: Shape, length: int)
    | StructShape(name: string)

  function ShapeOf(t: Type): Shape {
    match t
    case Base(x) => BaseShape(x)
    case PointerType(_, p) => PointerShape(ShapeOf(p))
    case ArrayType(_, e, n) => ArrayShape(ShapeOf(e), n)
    case StructType(_, name) => StructShape(name)
  }

  /** The equality methods compare exactly the shapes: which object a pointer, array
      or struct type is does not matter to them. */
  lemma {:induction false} EqualIsSameShape(a: Type, b: Type)
    ensures Equal(a, b) <==> ShapeOf(a) == ShapeOf(b)
  {
    match a
    case Base(_) =>
    case PointerType(_, p) =>
      if b.PointerType? { EqualIsSameShape(p, b.pointerToType); }
    case ArrayType(_, e, n) =>
      if b.ArrayType? { EqualIsSameShape(e, b.elem); }
    case StructType(_, _) =>
  }

  lemma EqualReflexive(a: Type)
    ensures Equal(a, a)
  {
    EqualIsSameShape(a, a);
  }

  lemma EqualSymmetric(a: Type, b: Type)
    ensures Equal(a, b) == Equal(b, a)
  {
    EqualIsSameShape(a, b);
    EqualIsSameShape(b, a);
  }

  lemma EqualTransitive(a: Type, b: Type, c: Type)
    requires Equal(a, b) && Equal(b, c)
    ensures Equal(a, c)
  {
    EqualIsSameShape(a, b);
    EqualIsSameShape(b, c);
    EqualIsSameShape(a, c);
  }

  /** `BaseType.Equals`: true exactly for the same constant; false against every
      pointer, array or struct type. */
  lemma BaseEqualIsIdentity(x: BaseType, b: Type)
    ensures Equal(Base(x), b) <==> b.Base? && b.base == x
  {
  }

  /** `PointerType`: false against a non-pointer, the pointees' equality otherwise. */
  lemma PointerEqual(s: Site, p: Type, b: Type)
    ensures !b.PointerType? ==> !Equal(PointerType(s, p), b)
    ensures b.PointerType? ==> Equal(PointerType(s, p), b) == Equal(p, b.pointerToType)
  {
  }

  /** `ArrayType`: false against a non-array or a different length; the element
      types' equality otherwise. */
  lemma ArrayEqual(s: Site, e: Type, n: Java.int32, b: Type)
    ensures !b.ArrayType? ==> !Equal(ArrayType(s, e, n), b)
    ensures b.ArrayType? && b.length != n ==> !Equal(ArrayType(s, e, n), b)
    ensures b.ArrayType? && b.length == n ==> Equal(ArrayType(s, e, n), b) == Equal(e, b.elem)
  {
  }

  /** `StructType.Equals`: true exactly against a struct type of the same name. */
  lemma StructEqual(s: Site, name: string, b: Type)
    ensures Equal(StructType(s, name), b) <==> b.StructType? && b.structType == name
  {
  }

  /** `n` pointer levels over `t`, each level its own object. */
  function Pointers(sites: seq<Site>, t: Type): Type {
    if sites == [] then t else PointerType(sites[0], Pointers(sites[1..], t))
  }

  /** Pointer^n(t) equals Pointer^m(u), for non-pointer t and u, only when n == m and
      t equals u. */
  lemma {:induction false} PointersEqual(ss: seq<Site>, t: Type, us: seq<Site>, u: Type)
    requires !t.PointerType? && !u.PointerType?
    ensures Equal(Pointers(ss, t), Pointers(us, u)) <==> |ss| == |us| && Equal(t, u)
  {
    if ss != [] && us != [] {
      PointersEqual(ss[1..], t, us[1..], u);
    }
  }
}

/**
 * The slice of the IDE's program-structure model the value generators read:
 * types with their presentable text, classes with their fields and methods,
 * and resolution of a class type through a table of known classes.
 */
module Psi {
  import opened JavaText

  /**
   * A type as the IDE presents it. A class type carries the text the IDE
   * shows for it (`List<String>`, `User`), the handle it resolves through,
   * and its type arguments.
   */
  datatype PsiType =
    | PrimitiveType(name: string)
    | ClassType(text: string, ref: string, params: seq<PsiType>)
    | ArrayType(component: PsiType)

  /** `getPresentableText`: an array shows its component followed by "[]". */
  function PresentableText(t: PsiType): (r: string)
    ensures t.ArrayType? ==> EndsWith(r, "[]")
  {
    match t
    case PrimitiveType(name) => name
    case ClassType(text, _, _) => text
    case ArrayType(c) => PresentableText(c) + "[]"
  }

  datatype PsiField = PsiField(name: string, ftype: PsiType, isStatic: bool, isFinal: bool)

  /** A method; `returnType` is None where the IDE answers null (constructors). */
  datatype PsiMethod = PsiMethod(name: string, returnType: Option<PsiType>)

  /**
   * A class: `getQualifiedName` (null for type parameters, local and
   * anonymous classes), `getAllFields` and `getAllMethods`, inherited ones included.
   */
  datatype PsiClass = PsiClass(qualifiedName: JStr, fields: seq<PsiField>, methods: seq<PsiMethod>)

  /** The classes the IDE can resolve, by handle. */
  type Universe = map<string, PsiClass>

  /** `PsiClassType.resolve()`: the class behind a class type, or None (null). */
  function Resolve(u: Universe, t: PsiType): (r: Option<PsiClass>)
    ensures r.Some? <==> t.ClassType? && t.ref in u
    ensures r.Some? ==> r.value == u[t.ref]
  {
    if t.ClassType? && t.ref in u then Some(u[t.ref]) else None
  }

  /** A measure of a type: every type argument and component is smaller than the type. */
  function Size(t: PsiType): (n: nat)
    ensures n >= 1
  {
    match t
    case PrimitiveType(_) => 1
    case ClassType(_, _, params) => 1 + SizeAll(params)
    case ArrayType(c) => 1 + Size(c)
  }

  function SizeAll(ps: seq<PsiType>): nat
  {
    if ps == [] then 0 else Size(ps[0]) + SizeAll(ps[1..])
  }

  /** The first two type arguments of a class type are smaller than it. */
  lemma ParamsSmaller(t: PsiType)
    requires t.ClassType?
    ensures |t.params| > 0 ==> Size(t.params[0]) < Size(t)
    ensures |t.params| > 1 ==> Size(t.params[1]) < Size(t)
  {
    if |t.params| > 1 {
      var ps := t.params;
      assert ps[1..][0] == ps[1];
      assert SizeAll(ps) == Size(ps[0]) + SizeAll(ps[1..]);
      assert SizeAll(ps[1..]) == Size(ps[1]) + SizeAll(ps[1..][1..]);
    }
  }

  /** The qualified names of the classes the IDE knows, null ones excepted. */
  function QualifiedNames(u: Universe): set<string>
  {
    set r | r in u && u[r].qualifiedName.Some? :: u[r].qualifiedName.value
  }

  /**
   * How many known classes can still be entered: the names not already in
   * progress. It bounds how deep object generation can go.
   */
  function Budget(u: Universe, inProgress: set<string>): nat
  {
    |QualifiedNames(u) - inProgress|
  }

  /** Entering a resolvable class that is not already in progress uses up budget. */
  lemma {:induction false} EnteringUsesBudget(u: Universe, inProgress: set<string>, r: string)
    requires r in u && u[r].qualifiedName.Some? && u[r].qualifiedName.value !in inProgress
    ensures Budget(u, inProgress + {u[r].qualifiedName.value}) < Budget(u, inProgress)
  {
    var q := u[r].qualifiedName.value;
    var names := QualifiedNames(u);
    assert q in names;
    assert names - inProgress == (names - (inProgress + {q})) + {q};
  }
}

/**
 * The abstract syntax tree the recipes edit: a cut-down view of OpenRewrite's typed
 * Java tree (J.ClassDeclaration, J.MethodDeclaration, J.MethodInvocation, J.NewClass, ...)
 * holding only what the recipes read or rebuild.
 */
module Lst {
  import opened Wrappers

  /** J.ClassDeclaration.Kind.Type */
  datatype Kind = Class | Enum | Interface | Annotation | Record | Value

  /** The resolved type of a class: its name and the types it extends or implements. */
  datatype ClassType = ClassType(fullyQualifiedName: string, supertypes: seq<string>)

  /**
   * JavaType.Method: the declaring type, the name, the parameter types and the
   * types whose declaration of this method it overrides or implements.
   */
  datatype MethodType = MethodType(
    declaringType: string,
    name: string,
    parameterTypes: seq<string>,
    overrides: seq<string>)

  /**
   * An argument or operand that is not itself a call. `Empty` is J.Empty, the one element of
   * the argument list of a call written with no arguments.
   */
  datatype Expression = Identifier(name: string) | Literal(text: string) | Empty

  /** The two kinds of call the call-removal visitor handles. */
  datatype CallKind = Invocation | NewClass

  /** J.MethodInvocation or J.NewClass; `methodType` is None when attribution failed. */
  datatype Call = Call(kind: CallKind, name: string, methodType: Option<MethodType>, arguments: seq<Expression>)

  /** A right-hand side or initializer: a call, or some other expression. */
  datatype Expr = CallExpr(call: Call) | PlainExpr(expression: Expression)

  /**
   * The statement shapes a method body is made of here: `call;`, `T v = e;` / `T v;`,
   * `v = e;`, a bare `v;`, and every other statement as opaque text.
   */
  datatype Statement =
    | ExpressionStatement(call: Call)
    | LocalVariable(typeName: string, variable: string, initializer: Option<Expr>)
    | Assignment(variable: string, value: Expr)
    | Reference(variable: string)
    | OtherStatement(text: string)

  /** J.MethodDeclaration; `methodType` is None when attribution failed. */
  datatype MethodDeclaration = MethodDeclaration(name: string, methodType: Option<MethodType>, body: seq<Statement>)

  /** A statement of a class body: a method, a field, or a nested class. */
  datatype Member =
    | Method(decl: MethodDeclaration)
    | Field(typeName: string, fieldName: string)
    | Nested(cls: ClassDeclaration)

  /** J.ClassDeclaration; `classType` is None when the type is unresolved. */
  datatype ClassDeclaration = ClassDeclaration(
    classType: Option<ClassType>,
    isAbstract: bool,
    kind: Kind,
    members: seq<Member>)

  /** A source file: its top-level class declarations. */
  datatype CompilationUnit = CompilationUnit(classes: seq<ClassDeclaration>)

  /**
   * ListUtils.map with a mapping that returns either null or the element itself:
   * the elements for which `drop` holds are left out, the others kept in order.
   */
  function RemoveWhere<T>(s: seq<T>, drop: T -> bool): (r: seq<T>)
    ensures forall i :: 0 <= i < |r| ==> r[i] in s && !drop(r[i])
    ensures forall i :: 0 <= i < |s| && !drop(s[i]) ==> s[i] in r
    ensures |r| <= |s|
    ensures (forall i :: 0 <= i < |s| ==> !drop(s[i])) ==> r == s
    ensures (forall i :: 0 <= i < |s| ==> drop(s[i])) ==> r == []
  {
    if |s| == 0 then []
    else (if drop(s[0]) then [] else [s[0]]) + RemoveWhere(s[1..], drop)
  }

  /** One step of the filter: the head is kept or dropped, the rest filtered. */
  lemma RemoveWhereCons<T>(x: T, s: seq<T>, drop: T -> bool)
    ensures RemoveWhere([x] + s, drop) == (if drop(x) then [] else [x]) + RemoveWhere(s, drop)
  {
    assert ([x] + s)[0] == x;
    assert ([x] + s)[1..] == s;
  }

  /** Filtering distributes over concatenation: kept elements keep their relative order. */
  lemma {:induction false} RemoveWhereConcat<T>(a: seq<T>, b: seq<T>, drop: T -> bool)
    ensures RemoveWhere(a + b, drop) == RemoveWhere(a, drop) + RemoveWhere(b, drop)
  {
    if a == [] {
      assert a + b == b;
    } else {
      assert (a + b)[0] == a[0];
      assert (a + b)[1..] == a[1..] + b;
      RemoveWhereConcat(a[1..], b, drop);
    }
  }

  /** An element that is kept stays between what is kept before it and what is kept after it. */
  lemma KeptElementStaysInPlace<T>(before: seq<T>, x: T, after: seq<T>, drop: T -> bool)
    requires !drop(x)
    ensures RemoveWhere(before + [x] + after, drop)
         == RemoveWhere(before, drop) + [x] + RemoveWhere(after, drop)
  {
    RemoveWhereConcat(before + [x], after, drop);
    RemoveWhereConcat(before, [x], drop);
    assert RemoveWhere([x], drop) == [x] by {
      assert [x][1..] == [];
    }
  }

  /** Filtering twice with the same predicate is filtering once. */
  lemma {:induction false} RemoveWhereIdempotent<T>(s: seq<T>, drop: T -> bool)
    ensures RemoveWhere(RemoveWhere(s, drop), drop) == RemoveWhere(s, drop)
  {
    var r := RemoveWhere(s, drop);
    forall i | 0 <= i < |r| ensures !drop(r[i]) {
      assert r[i] in r;
    }
  }
}

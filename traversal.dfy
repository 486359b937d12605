/**
 * JavaIsoVisitor.visitClassDeclaration as the recipes use it: `super.visitClassDeclaration`
 * visits the nested classes first, and the recipe's own edit then runs on the class whose
 * children have already been edited.
 */
module Traversal {
  import opened Wrappers
  import opened Lst

  /** Visit `c` bottom-up, applying `edit` to every class after its nested classes. */
  function VisitClass(c: ClassDeclaration, edit: ClassDeclaration -> ClassDeclaration): ClassDeclaration
    decreases c
  {
    edit(c.(members := VisitMembers(c.members, edit)))
  }

  function VisitMembers(ms: seq<Member>, edit: ClassDeclaration -> ClassDeclaration): (r: seq<Member>)
    ensures |r| == |ms|
    ensures forall i :: 0 <= i < |ms| ==> r[i] == VisitMember(ms[i], edit)
    decreases ms
  {
    if ms == [] then [] else [VisitMember(ms[0], edit)] + VisitMembers(ms[1..], edit)
  }

  function VisitMember(m: Member, edit: ClassDeclaration -> ClassDeclaration): Member
    decreases m
  {
    match m
    case Nested(c) => Nested(VisitClass(c, edit))
    case _ => m
  }

  function VisitClasses(cs: seq<ClassDeclaration>, edit: ClassDeclaration -> ClassDeclaration): (r: seq<ClassDeclaration>)
    ensures |r| == |cs|
    ensures forall i :: 0 <= i < |cs| ==> r[i] == VisitClass(cs[i], edit)
  {
    if cs == [] then [] else [VisitClass(cs[0], edit)] + VisitClasses(cs[1..], edit)
  }

  /** Visit every top-level class of a file. */
  function VisitUnit(cu: CompilationUnit, edit: ClassDeclaration -> ClassDeclaration): CompilationUnit {
    CompilationUnit(VisitClasses(cu.classes, edit))
  }

  /** The class declarations a traversal of `c` reaches: `c` and, recursively, its nested classes. */
  ghost function Classes(c: ClassDeclaration): set<ClassDeclaration>
    decreases c
  {
    {c} + MemberClasses(c.members)
  }

  ghost function MemberClasses(ms: seq<Member>): set<ClassDeclaration>
    decreases ms
  {
    if ms == [] then {}
    else MemberClassesOf(ms[0]) + MemberClasses(ms[1..])
  }

  ghost function MemberClassesOf(m: Member): set<ClassDeclaration>
    decreases m
  {
    match m
    case Nested(c) => Classes(c)
    case _ => {}
  }

  ghost function UnitClasses(cs: seq<ClassDeclaration>): set<ClassDeclaration> {
    if cs == [] then {} else Classes(cs[0]) + UnitClasses(cs[1..])
  }

  /** An edit that leaves every reachable class as it is leaves the whole tree as it is. */
  lemma {:induction false} FixedPoint(c: ClassDeclaration, edit: ClassDeclaration -> ClassDeclaration)
    requires forall d :: d in Classes(c) ==> edit(d) == d
    ensures VisitClass(c, edit) == c
    decreases c
  {
    MembersFixedPoint(c.members, edit);
    assert c.(members := c.members) == c;
  }

  lemma {:induction false} MembersFixedPoint(ms: seq<Member>, edit: ClassDeclaration -> ClassDeclaration)
    requires forall d :: d in MemberClasses(ms) ==> edit(d) == d
    ensures VisitMembers(ms, edit) == ms
    decreases ms
  {
    if ms != [] {
      MemberFixedPoint(ms[0], edit);
      MembersFixedPoint(ms[1..], edit);
      assert ms == [ms[0]] + ms[1..];
    }
  }

  lemma {:induction false} MemberFixedPoint(m: Member, edit: ClassDeclaration -> ClassDeclaration)
    requires forall d :: d in MemberClassesOf(m) ==> edit(d) == d
    ensures VisitMember(m, edit) == m
    decreases m
  {
    match m {
      case Nested(n) => FixedPoint(n, edit);
      case _ =>
    }
  }

  lemma {:induction false} UnitFixedPoint(cs: seq<ClassDeclaration>, edit: ClassDeclaration -> ClassDeclaration)
    requires forall d :: d in UnitClasses(cs) ==> edit(d) == d
    ensures VisitClasses(cs, edit) == cs
  {
    if cs != [] {
      FixedPoint(cs[0], edit);
      UnitFixedPoint(cs[1..], edit);
      assert cs == [cs[0]] + cs[1..];
    }
  }

  /** Members none of which is a nested class reach no class. */
  lemma {:induction false} NoNestedNoClasses(ms: seq<Member>)
    requires forall i :: 0 <= i < |ms| ==> !ms[i].Nested?
    ensures MemberClasses(ms) == {}
  {
    if ms != [] {
      NoNestedNoClasses(ms[1..]);
    }
  }

  /** A file of classes without nested classes: each class is edited once, in place. */
  lemma FlatUnit(cs: seq<ClassDeclaration>, edit: ClassDeclaration -> ClassDeclaration)
    requires forall i, j :: 0 <= i < |cs| && 0 <= j < |cs[i].members| ==> !cs[i].members[j].Nested?
    ensures VisitUnit(CompilationUnit(cs), edit) == CompilationUnit(seq(|cs|, i requires 0 <= i < |cs| => edit(cs[i])))
  {
    forall i | 0 <= i < |cs| ensures VisitClass(cs[i], edit) == edit(cs[i]) {
      FlatClass(cs[i], edit);
    }
  }

  /** A class without nested classes is edited exactly once, by the edit itself. */
  lemma FlatClass(c: ClassDeclaration, edit: ClassDeclaration -> ClassDeclaration)
    requires forall i :: 0 <= i < |c.members| ==> !c.members[i].Nested?
    ensures VisitClass(c, edit) == edit(c)
  {
    assert VisitMembers(c.members, edit) == c.members;
    assert c.(members := c.members) == c;
  }

  /** Applying the edit to its own result changes nothing. */
  ghost predicate Idempotent(edit: ClassDeclaration -> ClassDeclaration) {
    forall d :: edit(edit(d)) == edit(d)
  }

  /** The edit never brings in a nested class that was not already a member. */
  ghost predicate AddsNoNested(edit: ClassDeclaration -> ClassDeclaration) {
    forall d, m :: m in edit(d).members && m.Nested? ==> m in d.members
  }

  /** Every nested class in `ms` is already what a traversal makes of it. */
  ghost predicate Settled(ms: seq<Member>, edit: ClassDeclaration -> ClassDeclaration) {
    forall i :: 0 <= i < |ms| && ms[i].Nested? ==> VisitClass(ms[i].cls, edit) == ms[i].cls
  }

  lemma {:induction false} SettledUnchanged(ms: seq<Member>, edit: ClassDeclaration -> ClassDeclaration)
    requires Settled(ms, edit)
    ensures VisitMembers(ms, edit) == ms
    decreases ms
  {
    if ms != [] {
      SettledUnchanged(ms[1..], edit);
      assert ms == [ms[0]] + ms[1..];
    }
  }

  /** Traversing twice is traversing once, for an idempotent edit that adds no nested class. */
  lemma {:induction false} VisitIdempotent(c: ClassDeclaration, edit: ClassDeclaration -> ClassDeclaration)
    requires Idempotent(edit) && AddsNoNested(edit)
    ensures VisitClass(VisitClass(c, edit), edit) == VisitClass(c, edit)
    decreases c
  {
    var inner := c.(members := VisitMembers(c.members, edit));
    VisitSettles(c.members, edit);
    var e := edit(inner);
    forall i | 0 <= i < |e.members| && e.members[i].Nested?
      ensures VisitClass(e.members[i].cls, edit) == e.members[i].cls
    {
      var m := e.members[i];
      assert m in e.members;
      assert m in inner.members;
      var j :| 0 <= j < |inner.members| && inner.members[j] == m;
    }
    SettledUnchanged(e.members, edit);
    assert e.(members := VisitMembers(e.members, edit)) == e;
  }

  lemma {:induction false} VisitSettles(ms: seq<Member>, edit: ClassDeclaration -> ClassDeclaration)
    requires Idempotent(edit) && AddsNoNested(edit)
    ensures Settled(VisitMembers(ms, edit), edit)
    decreases ms
  {
    if ms != [] {
      MemberSettles(ms[0], edit);
      VisitSettles(ms[1..], edit);
      var r := VisitMembers(ms, edit);
      assert r == [VisitMember(ms[0], edit)] + VisitMembers(ms[1..], edit);
      forall i | 0 <= i < |r| && r[i].Nested? ensures VisitClass(r[i].cls, edit) == r[i].cls {
        if i > 0 {
          assert r[i] == VisitMembers(ms[1..], edit)[i - 1];
        }
      }
    }
  }

  lemma {:induction false} MemberSettles(m: Member, edit: ClassDeclaration -> ClassDeclaration)
    requires Idempotent(edit) && AddsNoNested(edit)
    ensures VisitMember(m, edit).Nested? ==> VisitClass(VisitMember(m, edit).cls, edit) == VisitMember(m, edit).cls
    decreases m
  {
    match m {
      case Nested(n) => VisitIdempotent(n, edit);
      case _ =>
    }
  }

  lemma {:induction false} UnitIdempotent(cs: seq<ClassDeclaration>, edit: ClassDeclaration -> ClassDeclaration)
    requires Idempotent(edit) && AddsNoNested(edit)
    ensures VisitClasses(VisitClasses(cs, edit), edit) == VisitClasses(cs, edit)
  {
    if cs != [] {
      VisitIdempotent(cs[0], edit);
      UnitIdempotent(cs[1..], edit);
      var r := VisitClasses(cs, edit);
      assert r[0] == VisitClass(cs[0], edit);
      assert r[1..] == VisitClasses(cs[1..], edit);
    }
  }

  // ---------------------------------------------------------------------------
  // The same traversal for an edit that may throw: the first exception ends the visit.

  function VisitClassOrFail<E>(c: ClassDeclaration, edit: ClassDeclaration -> Result<ClassDeclaration, E>): Result<ClassDeclaration, E>
    decreases c
  {
    match VisitMembersOrFail(c.members, edit)
    case Err(e) => Err(e)
    case Ok(ms) => edit(c.(members := ms))
  }

  function VisitMembersOrFail<E>(ms: seq<Member>, edit: ClassDeclaration -> Result<ClassDeclaration, E>): (r: Result<seq<Member>, E>)
    ensures r.Ok? <==> forall i :: 0 <= i < |ms| ==> VisitMemberOrFail(ms[i], edit).Ok?
    ensures r.Ok? ==> |r.value| == |ms| && forall i :: 0 <= i < |ms| ==> VisitMemberOrFail(ms[i], edit) == Ok(r.value[i])
    decreases ms
  {
    if ms == [] then Ok([])
    else
      match VisitMemberOrFail(ms[0], edit)
      case Err(e) => Err(e)
      case Ok(m) =>
        match VisitMembersOrFail(ms[1..], edit)
        case Err(e) => Err(e)
        case Ok(rest) => Ok([m] + rest)
  }

  function VisitMemberOrFail<E>(m: Member, edit: ClassDeclaration -> Result<ClassDeclaration, E>): Result<Member, E>
    decreases m
  {
    match m
    case Nested(c) =>
      (match VisitClassOrFail(c, edit)
       case Err(e) => Err(e)
       case Ok(c') => Ok(Nested(c')))
    case _ => Ok(m)
  }

  function VisitClassesOrFail<E>(cs: seq<ClassDeclaration>, edit: ClassDeclaration -> Result<ClassDeclaration, E>): (r: Result<seq<ClassDeclaration>, E>)
    ensures r.Ok? <==> forall i :: 0 <= i < |cs| ==> VisitClassOrFail(cs[i], edit).Ok?
    ensures r.Ok? ==> |r.value| == |cs| && forall i :: 0 <= i < |cs| ==> VisitClassOrFail(cs[i], edit) == Ok(r.value[i])
  {
    if cs == [] then Ok([])
    else
      match VisitClassOrFail(cs[0], edit)
      case Err(e) => Err(e)
      case Ok(c) =>
        match VisitClassesOrFail(cs[1..], edit)
        case Err(e) => Err(e)
        case Ok(rest) => Ok([c] + rest)
  }

  function VisitUnitOrFail<E>(cu: CompilationUnit, edit: ClassDeclaration -> Result<ClassDeclaration, E>): Result<CompilationUnit, E> {
    match VisitClassesOrFail(cu.classes, edit)
    case Err(e) => Err(e)
    case Ok(cs) => Ok(CompilationUnit(cs))
  }

  /** A class without nested classes is edited exactly once, by the edit itself. */
  lemma {:induction false} FlatClassOrFail<E>(c: ClassDeclaration, edit: ClassDeclaration -> Result<ClassDeclaration, E>)
    requires forall i :: 0 <= i < |c.members| ==> !c.members[i].Nested?
    ensures VisitClassOrFail(c, edit) == edit(c)
  {
    NoNestedNoClasses(c.members);
    MembersFixedPointOrFail(c.members, edit);
    assert c.(members := c.members) == c;
  }

  /** An edit that returns every reachable class unchanged leaves the tree unchanged and does not throw. */
  lemma {:induction false} FixedPointOrFail<E>(c: ClassDeclaration, edit: ClassDeclaration -> Result<ClassDeclaration, E>)
    requires forall d :: d in Classes(c) ==> edit(d) == Ok(d)
    ensures VisitClassOrFail(c, edit) == Ok(c)
    decreases c
  {
    MembersFixedPointOrFail(c.members, edit);
    assert c.(members := c.members) == c;
  }

  lemma {:induction false} MembersFixedPointOrFail<E>(ms: seq<Member>, edit: ClassDeclaration -> Result<ClassDeclaration, E>)
    requires forall d :: d in MemberClasses(ms) ==> edit(d) == Ok(d)
    ensures VisitMembersOrFail(ms, edit) == Ok(ms)
    decreases ms
  {
    if ms != [] {
      MemberFixedPointOrFail(ms[0], edit);
      MembersFixedPointOrFail(ms[1..], edit);
      assert ms == [ms[0]] + ms[1..];
    }
  }

  lemma {:induction false} MemberFixedPointOrFail<E>(m: Member, edit: ClassDeclaration -> Result<ClassDeclaration, E>)
    requires forall d :: d in MemberClassesOf(m) ==> edit(d) == Ok(d)
    ensures VisitMemberOrFail(m, edit) == Ok(m)
    decreases m
  {
    match m {
      case Nested(n) => FixedPointOrFail(n, edit);
      case _ =>
    }
  }

  lemma {:induction false} UnitFixedPointOrFail<E>(cs: seq<ClassDeclaration>, edit: ClassDeclaration -> Result<ClassDeclaration, E>)
    requires forall d :: d in UnitClasses(cs) ==> edit(d) == Ok(d)
    ensures VisitClassesOrFail(cs, edit) == Ok(cs)
  {
    if cs != [] {
      FixedPointOrFail(cs[0], edit);
      UnitFixedPointOrFail(cs[1..], edit);
      assert cs == [cs[0]] + cs[1..];
    }
  }

  /** A class the edit returns is one the edit returns unchanged. */
  ghost predicate IdempotentOrFail<E>(edit: ClassDeclaration -> Result<ClassDeclaration, E>) {
    forall d :: edit(d).Ok? ==> edit(edit(d).value) == edit(d)
  }

  ghost predicate AddsNoNestedOrFail<E>(edit: ClassDeclaration -> Result<ClassDeclaration, E>) {
    forall d, m :: edit(d).Ok? && m in edit(d).value.members && m.Nested? ==> m in d.members
  }

  ghost predicate SettledOrFail<E>(ms: seq<Member>, edit: ClassDeclaration -> Result<ClassDeclaration, E>) {
    forall i :: 0 <= i < |ms| && ms[i].Nested? ==> VisitClassOrFail(ms[i].cls, edit) == Ok(ms[i].cls)
  }

  lemma {:induction false} SettledUnchangedOrFail<E>(ms: seq<Member>, edit: ClassDeclaration -> Result<ClassDeclaration, E>)
    requires SettledOrFail(ms, edit)
    ensures VisitMembersOrFail(ms, edit) == Ok(ms)
    decreases ms
  {
    if ms != [] {
      SettledUnchangedOrFail(ms[1..], edit);
      assert ms == [ms[0]] + ms[1..];
    }
  }

  /** A traversal that succeeded, run again on its own result, succeeds and changes nothing. */
  lemma {:induction false} VisitIdempotentOrFail<E>(c: ClassDeclaration, edit: ClassDeclaration -> Result<ClassDeclaration, E>)
    requires IdempotentOrFail(edit) && AddsNoNestedOrFail(edit)
    requires VisitClassOrFail(c, edit).Ok?
    ensures VisitClassOrFail(VisitClassOrFail(c, edit).value, edit) == VisitClassOrFail(c, edit)
    decreases c
  {
    var ms := VisitMembersOrFail(c.members, edit).value;
    VisitSettlesOrFail(c.members, edit);
    var inner := c.(members := ms);
    var e := edit(inner).value;
    forall i | 0 <= i < |e.members| && e.members[i].Nested?
      ensures VisitClassOrFail(e.members[i].cls, edit) == Ok(e.members[i].cls)
    {
      var m := e.members[i];
      assert m in e.members;
      assert m in inner.members;
      var j :| 0 <= j < |inner.members| && inner.members[j] == m;
    }
    SettledUnchangedOrFail(e.members, edit);
    assert e.(members := e.members) == e;
  }

  lemma {:induction false} VisitSettlesOrFail<E>(ms: seq<Member>, edit: ClassDeclaration -> Result<ClassDeclaration, E>)
    requires IdempotentOrFail(edit) && AddsNoNestedOrFail(edit)
    requires VisitMembersOrFail(ms, edit).Ok?
    ensures SettledOrFail(VisitMembersOrFail(ms, edit).value, edit)
    decreases ms
  {
    if ms != [] {
      MemberSettlesOrFail(ms[0], edit);
      VisitSettlesOrFail(ms[1..], edit);
      var r := VisitMembersOrFail(ms, edit).value;
      var head := VisitMemberOrFail(ms[0], edit).value;
      var rest := VisitMembersOrFail(ms[1..], edit).value;
      assert r == [head] + rest;
      forall i | 0 <= i < |r| && r[i].Nested? ensures VisitClassOrFail(r[i].cls, edit) == Ok(r[i].cls) {
        if i > 0 {
          assert r[i] == rest[i - 1];
        }
      }
    }
  }

  lemma {:induction false} MemberSettlesOrFail<E>(m: Member, edit: ClassDeclaration -> Result<ClassDeclaration, E>)
    requires IdempotentOrFail(edit) && AddsNoNestedOrFail(edit)
    requires VisitMemberOrFail(m, edit).Ok?
    ensures var r := VisitMemberOrFail(m, edit).value;
      r.Nested? ==> VisitClassOrFail(r.cls, edit) == Ok(r.cls)
    decreases m
  {
    match m {
      case Nested(n) => VisitIdempotentOrFail(n, edit);
      case _ =>
    }
  }

  lemma {:induction false} UnitIdempotentOrFail<E>(cs: seq<ClassDeclaration>, edit: ClassDeclaration -> Result<ClassDeclaration, E>)
    requires IdempotentOrFail(edit) && AddsNoNestedOrFail(edit)
    requires VisitClassesOrFail(cs, edit).Ok?
    ensures VisitClassesOrFail(VisitClassesOrFail(cs, edit).value, edit) == VisitClassesOrFail(cs, edit)
  {
    if cs != [] {
      VisitIdempotentOrFail(cs[0], edit);
      UnitIdempotentOrFail(cs[1..], edit);
      var r := VisitClassesOrFail(cs, edit).value;
      assert r[0] == VisitClassOrFail(cs[0], edit).value;
      assert r[1..] == VisitClassesOrFail(cs[1..], edit).value;
    }
  }
}

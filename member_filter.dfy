/**
 * The member-list filter that DeleteMethod and RemoveMethodDeclaration run in
 * visitClassDeclaration: after the nested classes have been visited, every member the
 * recipe's test accepts is dropped (ListUtils.map returning null) and the class is rebuilt
 * with the remaining members, in their original order.
 */
module MemberFilter {
  import opened Wrappers
  import opened Lst
  import Traversal

  /** The recipe's test: is this member, inside a class of this type, to be deleted? */
  type DropTest = (Option<ClassType>, Member) -> bool

  /** The lambda handed to ListUtils.map, for a class of type `enclosing`. */
  function DropIn(drop: DropTest, enclosing: Option<ClassType>): Member -> bool {
    m => drop(enclosing, m)
  }

  /** The edit of one class: only its member list changes, and only by removal. */
  function FilterClass(drop: DropTest, cd: ClassDeclaration): (res: ClassDeclaration)
    ensures res.(members := cd.members) == cd
    ensures forall i :: 0 <= i < |res.members| ==>
      res.members[i] in cd.members && !drop(cd.classType, res.members[i])
    ensures forall i :: 0 <= i < |cd.members| && !drop(cd.classType, cd.members[i]) ==>
      cd.members[i] in res.members
  {
    cd.(members := RemoveWhere(cd.members, DropIn(drop, cd.classType)))
  }

  function Filter(drop: DropTest): ClassDeclaration -> ClassDeclaration {
    cd => FilterClass(drop, cd)
  }

  /** A member the test keeps stays where it was relative to the other kept members. */
  lemma FilterKeepsOrder(drop: DropTest, cd: ClassDeclaration, before: seq<Member>, x: Member, after: seq<Member>)
    requires cd.members == before + [x] + after
    requires !drop(cd.classType, x)
    ensures FilterClass(drop, cd).members
         == RemoveWhere(before, DropIn(drop, cd.classType)) + [x] + RemoveWhere(after, DropIn(drop, cd.classType))
  {
    KeptElementStaysInPlace(before, x, after, DropIn(drop, cd.classType));
  }

  /** No member of `c`, nor of any class nested in it, is one the test drops. */
  ghost predicate Clean(drop: DropTest, c: ClassDeclaration)
    decreases c
  {
    forall i :: 0 <= i < |c.members| ==> !drop(c.classType, c.members[i]) && CleanMember(drop, c.members[i])
  }

  ghost predicate CleanMember(drop: DropTest, m: Member)
    decreases m
  {
    match m
    case Nested(n) => Clean(drop, n)
    case _ => true
  }

  /** After the traversal nothing the test drops is left, at any depth of nesting. */
  lemma {:induction false} FilterRemovesEveryMatch(drop: DropTest, c: ClassDeclaration)
    ensures Clean(drop, Traversal.VisitClass(c, Filter(drop)))
    decreases c
  {
    var inner := c.(members := Traversal.VisitMembers(c.members, Filter(drop)));
    forall i | 0 <= i < |inner.members| ensures CleanMember(drop, inner.members[i]) {
      MemberFilterRemovesEveryMatch(drop, c.members[i]);
    }
    var res := FilterClass(drop, inner);
    assert Traversal.VisitClass(c, Filter(drop)) == res;
    forall i | 0 <= i < |res.members|
      ensures !drop(res.classType, res.members[i]) && CleanMember(drop, res.members[i])
    {
      assert res.members[i] in inner.members;
    }
  }

  lemma {:induction false} MemberFilterRemovesEveryMatch(drop: DropTest, m: Member)
    ensures CleanMember(drop, Traversal.VisitMember(m, Filter(drop)))
    decreases m
  {
    match m {
      case Nested(n) => FilterRemovesEveryMatch(drop, n);
      case _ =>
    }
  }

  /** A class in which nothing matches, at any depth, comes back unchanged. */
  lemma {:induction false} CleanIsUnchanged(drop: DropTest, c: ClassDeclaration)
    requires Clean(drop, c)
    ensures Traversal.VisitClass(c, Filter(drop)) == c
    decreases c
  {
    forall i | 0 <= i < |c.members| ensures Traversal.VisitMember(c.members[i], Filter(drop)) == c.members[i] {
      MemberCleanIsUnchanged(drop, c.members[i]);
    }
    assert Traversal.VisitMembers(c.members, Filter(drop)) == c.members;
    assert c.(members := c.members) == c;
  }

  lemma {:induction false} MemberCleanIsUnchanged(drop: DropTest, m: Member)
    requires CleanMember(drop, m)
    ensures Traversal.VisitMember(m, Filter(drop)) == m
    decreases m
  {
    match m {
      case Nested(n) => CleanIsUnchanged(drop, n);
      case _ =>
    }
  }

  /** Running the filter on its own output changes nothing. */
  lemma FilterIdempotent(drop: DropTest, c: ClassDeclaration)
    ensures Traversal.VisitClass(Traversal.VisitClass(c, Filter(drop)), Filter(drop))
         == Traversal.VisitClass(c, Filter(drop))
  {
    forall d ensures Filter(drop)(Filter(drop)(d)) == Filter(drop)(d) {
      RemoveWhereIdempotent(d.members, DropIn(drop, d.classType));
    }
    forall d, m | m in Filter(drop)(d).members && m.Nested? ensures m in d.members {
      var i :| 0 <= i < |Filter(drop)(d).members| && Filter(drop)(d).members[i] == m;
    }
    Traversal.VisitIdempotent(c, Filter(drop));
  }

  /** The same for a whole file. */
  lemma UnitFilterIdempotent(drop: DropTest, cs: seq<ClassDeclaration>)
    ensures Traversal.VisitClasses(Traversal.VisitClasses(cs, Filter(drop)), Filter(drop))
         == Traversal.VisitClasses(cs, Filter(drop))
  {
    forall d ensures Filter(drop)(Filter(drop)(d)) == Filter(drop)(d) {
      RemoveWhereIdempotent(d.members, DropIn(drop, d.classType));
    }
    forall d, m | m in Filter(drop)(d).members && m.Nested? ensures m in d.members {
      var i :| 0 <= i < |Filter(drop)(d).members| && Filter(drop)(d).members[i] == m;
    }
    Traversal.UnitIdempotent(cs, Filter(drop));
  }
}

/** The QueryDSL expressions the library builds: paths rooted at the entity, the
    comparisons each handler emits, and the conjunction the builder folds them into. */
module Predicates {
  import opened Wrappers
  import opened Text
  import opened Platform

  /** A QueryDSL entity path: the entity's `PathBuilder`, or the `any()` element of a
      collection reached from another path. */
  datatype EntityPath = Root(alias: string) | AnyElement(owner: EntityPath, collection: string)

  /** The constants a comparison can carry. `NullConstant` is the null reference a
      handler passes on when its conversion gave no value. */
  datatype Constant =
    | InstantConstant(instant: Instant)
    | LocalDateConstant(date: LocalDate)
    | DoubleConstant(number: Double)
    | UuidConstant(uuid: Uuid)
    | StringConstant(text: string)
    | BooleanConstant(flag: bool)
    | EnumConstant(name: string)
    | NullConstant

  /** The QueryDSL comparison methods the handlers call. */
  datatype Comparison =
    | Eq | Ne | Gt | Goe | Lt | Loe
    | StartsWithIgnoreCase | EndsWithIgnoreCase | ContainsIgnoreCase

  /** A `BooleanExpression`. `True` is `Expressions.TRUE.isTrue()`. */
  datatype Pred =
    | True
    | And(left: Pred, right: Pred)
    | IsNull(entity: EntityPath, key: string)
    | IsNotNull(entity: EntityPath, key: string)
    | Compare(entity: EntityPath, key: string, comparison: Comparison, value: Constant)

  /** The truth of a predicate, given the truth of its comparisons. */
  predicate Holds(p: Pred, atom: Pred -> bool) {
    match p
    case True => true
    case And(l, r) => Holds(l, atom) && Holds(r, atom)
    case _ => atom(p)
  }

  /** `result = TRUE; for (p : ps) result = result.and(p)`. */
  function Conjunction(ps: seq<Pred>): Pred {
    if |ps| == 0 then True else And(Conjunction(ps[..|ps| - 1]), ps[|ps| - 1])
  }

  /** The fold holds exactly when every predicate in it holds. */
  lemma {:induction false} ConjunctionHolds(ps: seq<Pred>, atom: Pred -> bool)
    ensures Holds(Conjunction(ps), atom) <==> forall i :: 0 <= i < |ps| ==> Holds(ps[i], atom)
  {
    if |ps| > 0 {
      var init := ps[..|ps| - 1];
      ConjunctionHolds(init, atom);
      assert forall i :: 0 <= i < |init| ==> init[i] == ps[i];
    }
  }

  /** Extending the list adds one `and` on the right. */
  lemma ConjunctionAppend(ps: seq<Pred>, p: Pred)
    ensures Conjunction(ps + [p]) == And(Conjunction(ps), p)
  {
    assert (ps + [p])[..|ps|] == ps;
  }

  /** One row as a comparison sees it: the value of the compared field (none for SQL
      null) and the order of the field's type. */
  datatype Row = Row(field: Option<Constant>, less: (Constant, Constant) -> bool)

  /** What the database makes of a QueryDSL comparison method, for a non-null field
      value `x` and the constant `c`; the text comparisons lower-case both sides. */
  predicate ComparisonHolds(cmp: Comparison, x: Constant, c: Constant, less: (Constant, Constant) -> bool) {
    match cmp
    case Eq => x == c
    case Ne => x != c
    case Gt => less(c, x)
    case Goe => less(c, x) || x == c
    case Lt => less(x, c)
    case Loe => less(x, c) || x == c
    case StartsWithIgnoreCase =>
      x.StringConstant? && c.StringConstant? && LowerText(c.text) <= LowerText(x.text)
    case EndsWithIgnoreCase =>
      x.StringConstant? && c.StringConstant? && |c.text| <= |x.text| &&
      LowerText(x.text)[|x.text| - |c.text|..] == LowerText(c.text)
    case ContainsIgnoreCase =>
      x.StringConstant? && c.StringConstant? &&
      exists i: nat :: i <= |x.text| && OccursAt(LowerText(x.text), LowerText(c.text), i)
  }

  /** The truth of a single-field comparison in a row. A comparison with a null field is
      false, as in SQL. */
  predicate AtomHolds(p: Pred, row: Row) {
    match p
    case IsNull(_, _) => row.field.None?
    case IsNotNull(_, _) => row.field.Some?
    case Compare(_, _, cmp, c) => row.field.Some? && ComparisonHolds(cmp, row.field.value, c, row.less)
    case _ => true
  }
}

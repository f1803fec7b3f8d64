/**
 * JSON trees as Python's `json` module loads them, with Python's two notions of "equal".
 *
 * `==` counts a bool as a number and does not see how a number is spelled; the repository uses it
 * for membership in lists. Its leaves are compared more strictly: a bool only equals a bool. The
 * third relation, equality up to the spelling of a number, is what two trees have in common that
 * no reader of the configuration can tell apart.
 *
 * NaN and the infinities have no counterpart here.
 */
module Json {

  datatype Option<+T> = None | Some(value: T)

  datatype Result<+T, +E> = Ok(value: T) | Err(error: E)

  /** Integers and floats stay apart, as in Python: only an `Int` passes `isinstance(v, int)`. */
  datatype J =
    | Null
    | Bool(b: bool)
    | Int(n: int)
    | Float(x: real)
    | Str(s: string)
    | Arr(items: seq<J>)
    | Obj(fields: map<string, J>)

  predicate IsNumeric(j: J) {
    j.Int? || j.Float?
  }

  /** The number a bool, int or float counts as in a Python comparison. */
  function NumberOf(j: J): real
    requires j.Bool? || IsNumeric(j)
  {
    match j
    case Bool(b) => if b then 1.0 else 0.0
    case Int(n) => n as real
    case Float(x) => x
  }

  predicate IsNumberLike(j: J) {
    j.Bool? || IsNumeric(j)
  }

  /** Python's `==`, under which `True == 1 == 1.0`. */
  predicate LooseEq(a: J, b: J)
    decreases a
  {
    match a
    case Null => b.Null?
    case Str(s) => b == a
    case Arr(xs) =>
      b.Arr? && |xs| == |b.items| && forall i | 0 <= i < |xs| :: LooseEq(xs[i], b.items[i])
    case Obj(m) =>
      b.Obj? && m.Keys == b.fields.Keys && forall k | k in m :: LooseEq(m[k], b.fields[k])
    case _ => IsNumberLike(b) && NumberOf(a) == NumberOf(b)
  }

  /** Equality up to the spelling of a number (1 or 1.0); a bool only equals the same bool. */
  predicate Same(a: J, b: J)
    decreases a
  {
    match a
    case Arr(xs) =>
      b.Arr? && |xs| == |b.items| && forall i | 0 <= i < |xs| :: Same(xs[i], b.items[i])
    case Obj(m) =>
      b.Obj? && m.Keys == b.fields.Keys && forall k | k in m :: Same(m[k], b.fields[k])
    case Int(_) => IsNumeric(b) && NumberOf(a) == NumberOf(b)
    case Float(_) => IsNumeric(b) && NumberOf(a) == NumberOf(b)
    case _ => a == b
  }

  /** Python's truth value of a JSON value. */
  predicate Truthy(j: J) {
    match j
    case Null => false
    case Bool(b) => b
    case Int(n) => n != 0
    case Float(x) => x != 0.0
    case Str(s) => s != ""
    case Arr(xs) => xs != []
    case Obj(m) => m != map[]
  }

  lemma {:induction false} SameReflexive(a: J)
    ensures Same(a, a)
    decreases a
  {
    match a
    case Arr(xs) =>
      forall i | 0 <= i < |xs| ensures Same(xs[i], xs[i]) { SameReflexive(xs[i]); }
    case Obj(m) =>
      forall k | k in m ensures Same(m[k], m[k]) { SameReflexive(m[k]); }
    case _ =>
  }

  lemma {:induction false} SameTransitive(a: J, b: J, c: J)
    requires Same(a, b) && Same(b, c)
    ensures Same(a, c)
    decreases a
  {
    match a
    case Arr(xs) =>
      forall i | 0 <= i < |xs| ensures Same(xs[i], c.items[i]) {
        SameTransitive(xs[i], b.items[i], c.items[i]);
      }
    case Obj(m) =>
      forall k | k in m ensures Same(m[k], c.fields[k]) {
        SameTransitive(m[k], b.fields[k], c.fields[k]);
      }
    case _ =>
  }

  lemma {:induction false} SameSymmetric(a: J, b: J)
    requires Same(a, b)
    ensures Same(b, a)
    decreases a
  {
    match a
    case Arr(xs) =>
      forall i | 0 <= i < |xs| ensures Same(b.items[i], xs[i]) { SameSymmetric(xs[i], b.items[i]); }
    case Obj(m) =>
      forall k | k in m ensures Same(b.fields[k], m[k]) { SameSymmetric(m[k], b.fields[k]); }
    case _ =>
  }

  lemma {:induction false} LooseEqReflexive(a: J)
    ensures LooseEq(a, a)
    decreases a
  {
    match a
    case Arr(xs) =>
      forall i | 0 <= i < |xs| ensures LooseEq(xs[i], xs[i]) { LooseEqReflexive(xs[i]); }
    case Obj(m) =>
      forall k | k in m ensures LooseEq(m[k], m[k]) { LooseEqReflexive(m[k]); }
    case _ =>
  }

  /** Python's `==` does not see how a number is spelled. */
  lemma {:induction false} LooseEqSame(a: J, b: J, c: J)
    requires LooseEq(a, b) && Same(b, c)
    ensures LooseEq(a, c)
    decreases a
  {
    match a
    case Arr(xs) =>
      forall i | 0 <= i < |xs| ensures LooseEq(xs[i], c.items[i]) {
        LooseEqSame(xs[i], b.items[i], c.items[i]);
      }
    case Obj(m) =>
      forall k | k in m ensures LooseEq(m[k], c.fields[k]) {
        LooseEqSame(m[k], b.fields[k], c.fields[k]);
      }
    case _ =>
  }
}

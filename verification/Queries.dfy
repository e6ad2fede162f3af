// The Mongo query language, as far as this library builds and rewrites it, over documents
// with scalar fields.

module Queries {
  datatype Value =
    | Null
    | Bool(b: bool)
    | Num(n: int)
    | Str(s: string)
    | Date(t: int)
    | Oid(h: int)

  type Doc = map<string, Value>

  // A missing field reads as null.
  function Read(d: Doc, f: string): Value {
    if f in d then d[f] else Null
  }

  predicate StrLess(a: string, b: string) {
    b != "" && (a == "" || a[0] < b[0] || (a[0] == b[0] && StrLess(a[1..], b[1..])))
  }

  predicate SameType(a: Value, b: Value) {
    match a
    case Null => b.Null?
    case Bool(_) => b.Bool?
    case Num(_) => b.Num?
    case Str(_) => b.Str?
    case Date(_) => b.Date?
    case Oid(_) => b.Oid?
  }

  // Order within one type; values of different types do not compare.
  predicate Less(a: Value, b: Value) {
    match (a, b)
    case (Bool(x), Bool(y)) => !x && y
    case (Num(x), Num(y)) => x < y
    case (Str(x), Str(y)) => StrLess(x, y)
    case (Date(x), Date(y)) => x < y
    case (Oid(x), Oid(y)) => x < y
    case _ => false
  }

  datatype Order = Gt | Gte | Lt | Lte

  predicate InOrder(c: Order, x: Value, v: Value) {
    match c
    case Gt => Less(v, x)
    case Gte => Less(v, x) || x == v
    case Lt => Less(x, v)
    case Lte => Less(x, v) || x == v
  }

  datatype Op =
    | Equal(v: Value)
    | NotEqual(v: Value)
    | Compare(c: Order, v: Value)
    | In(vs: seq<Value>)
    | Nin(vs: seq<Value>)
    | Regex(pattern: string, options: string)
    | Not(ops: seq<Op>)

  // { path: value } or { path: { $op: ..., ... } }.
  datatype Test = Is(v: Value) | Ops(ops: seq<Op>)

  datatype FieldTest = FieldTest(path: string, test: Test)

  // A query object: its field entries and the operands of its $and, $or and $nor entries,
  // empty when there is no such entry; `nots` are top-level $not entries, which the server
  // refuses; `exprs` are constant $expr entries and `texts` the search strings of $text entries.
  datatype Query = Query(
    fields: seq<FieldTest>,
    ands: seq<Query>,
    ors: seq<Query>,
    nors: seq<Query>,
    nots: seq<Query>,
    exprs: seq<bool>,
    texts: seq<string>)

  const EVERYTHING := Query([], [], [], [], [], [], [])

  function Field(path: string, test: Test): Query {
    EVERYTHING.(fields := [FieldTest(path, test)])
  }

  // What an operand of an aggregation expression stands for on a document: an undefined
  // variable, nothing, a scalar, or a whole document.
  datatype Operand = Unknown | Absent | Scalar(v: Value) | Document

  // The server's regular-expression engine, its text search, and its aggregation variables.
  datatype Engine = Engine(
    regex: (string, string, string) -> bool,
    text: (string, Doc) -> bool,
    variable: (string, Doc) -> Operand)

  predicate OpHolds(e: Engine, op: Op, x: Value) {
    match op
    case Equal(v) => x == v
    case NotEqual(v) => x != v
    case Compare(c, v) => InOrder(c, x, v)
    case In(vs) => x in vs
    case Nin(vs) => x !in vs
    case Regex(p, o) => x.Str? && e.regex(p, o, x.s)
    case Not(ops) => exists i | 0 <= i < |ops| :: !OpHolds(e, ops[i], x)
  }

  predicate Passes(e: Engine, test: Test, x: Value) {
    match test
    case Is(v) => x == v
    case Ops(ops) => forall i | 0 <= i < |ops| :: OpHolds(e, ops[i], x)
  }

  predicate FieldsPass(e: Engine, fields: seq<FieldTest>, d: Doc) {
    forall i | 0 <= i < |fields| :: Passes(e, fields[i].test, Read(d, fields[i].path))
  }

  predicate TopLevelHolds(e: Engine, exprs: seq<bool>, texts: seq<string>, d: Doc) {
    (forall i | 0 <= i < |exprs| :: exprs[i]) && (forall i | 0 <= i < |texts| :: e.text(texts[i], d))
  }

  predicate Matches(e: Engine, q: Query, d: Doc) {
    && FieldsPass(e, q.fields, d)
    && TopLevelHolds(e, q.exprs, q.texts, d)
    && (forall i | 0 <= i < |q.ands| :: Matches(e, q.ands[i], d))
    && (q.ors != [] ==> exists i | 0 <= i < |q.ors| :: Matches(e, q.ors[i], d))
    && (forall i | 0 <= i < |q.nors| :: !Matches(e, q.nors[i], d))
  }

  // Whether the server takes the query at all.
  predicate Accepted(q: Query)
    decreases q
  {
    && q.nots == []
    && (forall i | 0 <= i < |q.ands| :: Accepted(q.ands[i]))
    && (forall i | 0 <= i < |q.ors| :: Accepted(q.ors[i]))
    && (forall i | 0 <= i < |q.nors| :: Accepted(q.nors[i]))
  }

  // ---- The order of values -------------------------------------------------------------

  lemma {:induction false} StrLessTransitive(a: string, b: string, c: string)
    requires StrLess(a, b) && StrLess(b, c)
    ensures StrLess(a, c)
    decreases |a|
  {
    if a != "" && a[0] == b[0] == c[0] {
      StrLessTransitive(a[1..], b[1..], c[1..]);
    }
  }

  lemma {:induction false} StrLessIrreflexive(a: string)
    ensures !StrLess(a, a)
  {
    if a != "" {
      StrLessIrreflexive(a[1..]);
    }
  }

  lemma LessIsStrict(a: Value, b: Value, c: Value)
    ensures !Less(a, a)
    ensures Less(a, b) && Less(b, c) ==> Less(a, c)
  {
    if a.Str? {
      StrLessIrreflexive(a.s);
      if b.Str? && c.Str? && Less(a, b) && Less(b, c) {
        StrLessTransitive(a.s, b.s, c.s);
      }
    }
  }

  lemma {:induction false} StrLessTotal(a: string, b: string)
    ensures a == b || StrLess(a, b) || StrLess(b, a)
    ensures !(StrLess(a, b) && StrLess(b, a))
    decreases |a|
  {
    if a != "" && b != "" && a[0] == b[0] {
      StrLessTotal(a[1..], b[1..]);
      assert a == [a[0]] + a[1..] && b == [b[0]] + b[1..];
    }
  }

  lemma LessIsTotal(a: Value, b: Value)
    requires SameType(a, b)
    ensures a == b || Less(a, b) || Less(b, a)
    ensures !(Less(a, b) && Less(b, a))
  {
    if a.Str? {
      StrLessTotal(a.s, b.s);
    }
  }
}

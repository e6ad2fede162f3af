// Schema-aware casting of a query before it is handed to an aggregation $match, which
// compares by type and casts nothing.

module CastSchema {
  import opened Common
  import opened Queries

  // A schema path's cast of a value; None when the path is unknown or the cast throws.
  type Schema = (string, Value) -> Option<Value>

  // Null and already-typed objects pass, and an uncastable value is left as it is.
  function CastValue(s: Schema, path: string, v: Value): Value {
    if v.Null? || v.Oid? then v
    else match s(path, v) case Some(w) => w case None => v
  }

  function CastValues(s: Schema, path: string, vs: seq<Value>): seq<Value> {
    seq(|vs|, i requires 0 <= i < |vs| => CastValue(s, path, vs[i]))
  }

  // Operators outside the scalar and array ones, $not among them, are left alone.
  function CastOp(s: Schema, path: string, op: Op): Op {
    match op
    case Equal(v) => Equal(CastValue(s, path, v))
    case NotEqual(v) => NotEqual(CastValue(s, path, v))
    case Compare(c, v) => Compare(c, CastValue(s, path, v))
    case In(vs) => In(CastValues(s, path, vs))
    case Nin(vs) => Nin(CastValues(s, path, vs))
    case Regex(_, _) => op
    case Not(_) => op
  }

  function CastTest(s: Schema, t: FieldTest): FieldTest {
    match t.test
    case Is(v) => FieldTest(t.path, Is(CastValue(s, t.path, v)))
    case Ops(ops) =>
      FieldTest(t.path, Ops(seq(|ops|, i requires 0 <= i < |ops| => CastOp(s, t.path, ops[i]))))
  }

  // Taken for a Filter IR node, and left to the IR compiler: an object with a string `op`.
  predicate LooksLikeIR(q: Query) {
    exists i | 0 <= i < |q.fields| :: q.fields[i].path == "op" && q.fields[i].test.Is? && q.fields[i].test.v.Str?
  }

  function Cast(s: Schema, q: Query): Query
    decreases q
  {
    if LooksLikeIR(q) then q
    else
      Query(
        seq(|q.fields|, i requires 0 <= i < |q.fields| => CastTest(s, q.fields[i])),
        seq(|q.ands|, i requires 0 <= i < |q.ands| => Cast(s, q.ands[i])),
        seq(|q.ors|, i requires 0 <= i < |q.ors| => Cast(s, q.ors[i])),
        seq(|q.nors|, i requires 0 <= i < |q.nors| => Cast(s, q.nors[i])),
        seq(|q.nots|, i requires 0 <= i < |q.nots| => Cast(s, q.nots[i])),
        q.exprs,
        q.texts)
  }

  // ---- What find() does: compare the stored value with the operand cast, everywhere ------

  predicate OpHoldsCast(e: Engine, s: Schema, path: string, op: Op, x: Value) {
    match op
    case Equal(v) => x == CastValue(s, path, v)
    case NotEqual(v) => x != CastValue(s, path, v)
    case Compare(c, v) => InOrder(c, x, CastValue(s, path, v))
    case In(vs) => exists i | 0 <= i < |vs| :: x == CastValue(s, path, vs[i])
    case Nin(vs) => forall i | 0 <= i < |vs| :: x != CastValue(s, path, vs[i])
    case Regex(p, o) => x.Str? && e.regex(p, o, x.s)
    case Not(ops) => exists i | 0 <= i < |ops| :: !OpHoldsCast(e, s, path, ops[i], x)
  }

  predicate PassesCast(e: Engine, s: Schema, t: FieldTest, x: Value) {
    match t.test
    case Is(v) => x == CastValue(s, t.path, v)
    case Ops(ops) => forall i | 0 <= i < |ops| :: OpHoldsCast(e, s, t.path, ops[i], x)
  }

  predicate FieldsPassCast(e: Engine, s: Schema, fields: seq<FieldTest>, d: Doc) {
    forall i | 0 <= i < |fields| :: PassesCast(e, s, fields[i], Read(d, fields[i].path))
  }

  predicate MatchesCast(e: Engine, s: Schema, q: Query, d: Doc)
    decreases q
  {
    && FieldsPassCast(e, s, q.fields, d)
    && TopLevelHolds(e, q.exprs, q.texts, d)
    && (forall i | 0 <= i < |q.ands| :: MatchesCast(e, s, q.ands[i], d))
    && (q.ors != [] ==> exists i | 0 <= i < |q.ors| :: MatchesCast(e, s, q.ors[i], d))
    && (forall i | 0 <= i < |q.nors| :: !MatchesCast(e, s, q.nors[i], d))
  }

  // ---- Which operands the schema changes, and which of those the cast misses -------------

  predicate ChangesOp(s: Schema, path: string, op: Op) {
    match op
    case Equal(v) => CastValue(s, path, v) != v
    case NotEqual(v) => CastValue(s, path, v) != v
    case Compare(_, v) => CastValue(s, path, v) != v
    case In(vs) => CastValues(s, path, vs) != vs
    case Nin(vs) => CastValues(s, path, vs) != vs
    case Regex(_, _) => false
    case Not(ops) => exists i | 0 <= i < |ops| :: ChangesOp(s, path, ops[i])
  }

  predicate ChangesTest(s: Schema, t: FieldTest) {
    match t.test
    case Is(v) => CastValue(s, t.path, v) != v
    case Ops(ops) => exists i | 0 <= i < |ops| :: ChangesOp(s, t.path, ops[i])
  }

  predicate ChangesQuery(s: Schema, q: Query)
    decreases q
  {
    || (exists i | 0 <= i < |q.fields| :: ChangesTest(s, q.fields[i]))
    || (exists i | 0 <= i < |q.ands| :: ChangesQuery(s, q.ands[i]))
    || (exists i | 0 <= i < |q.ors| :: ChangesQuery(s, q.ors[i]))
    || (exists i | 0 <= i < |q.nors| :: ChangesQuery(s, q.nors[i]))
  }

  predicate MissesTest(s: Schema, t: FieldTest) {
    t.test.Ops? && exists i | 0 <= i < |t.test.ops| :: t.test.ops[i].Not? && ChangesOp(s, t.path, t.test.ops[i])
  }

  // A node taken for IR, or a $not, holds an operand that the schema changes.
  predicate Misses(s: Schema, q: Query)
    decreases q
  {
    if LooksLikeIR(q) then ChangesQuery(s, q)
    else
      || (exists i | 0 <= i < |q.fields| :: MissesTest(s, q.fields[i]))
      || (exists i | 0 <= i < |q.ands| :: Misses(s, q.ands[i]))
      || (exists i | 0 <= i < |q.ors| :: Misses(s, q.ors[i]))
      || (exists i | 0 <= i < |q.nors| :: Misses(s, q.nors[i]))
  }

  // ---- Strict matching after the cast ----------------------------------------------------

  lemma CastMember(s: Schema, path: string, vs: seq<Value>, x: Value)
    ensures x in CastValues(s, path, vs) <==> exists i | 0 <= i < |vs| :: x == CastValue(s, path, vs[i])
  {
    var cast := CastValues(s, path, vs);
    if i :| 0 <= i < |vs| && x == CastValue(s, path, vs[i]) {
      assert x == cast[i];
    }
  }

  lemma SameMembers(s: Schema, path: string, vs: seq<Value>, x: Value)
    requires CastValues(s, path, vs) == vs
    ensures x in vs <==> exists i | 0 <= i < |vs| :: x == CastValue(s, path, vs[i])
  {
    CastMember(s, path, vs, x);
  }

  // An operand the schema leaves alone means the same either way.
  lemma {:induction false} UnchangedOpHolds(e: Engine, s: Schema, path: string, op: Op, x: Value)
    requires !ChangesOp(s, path, op)
    ensures OpHolds(e, op, x) <==> OpHoldsCast(e, s, path, op, x)
    decreases op
  {
    match op
    case In(vs) => SameMembers(s, path, vs, x);
    case Nin(vs) => SameMembers(s, path, vs, x);
    case Not(ops) =>
      forall i | 0 <= i < |ops| ensures OpHolds(e, ops[i], x) <==> OpHoldsCast(e, s, path, ops[i], x) {
        UnchangedOpHolds(e, s, path, ops[i], x);
      }
    case _ =>
  }

  lemma CastOpHolds(e: Engine, s: Schema, path: string, op: Op, x: Value)
    requires op.Not? ==> !ChangesOp(s, path, op)
    ensures OpHolds(e, CastOp(s, path, op), x) <==> OpHoldsCast(e, s, path, op, x)
  {
    match op
    case In(vs) => CastMember(s, path, vs, x);
    case Nin(vs) => CastMember(s, path, vs, x);
    case Not(_) => UnchangedOpHolds(e, s, path, op, x);
    case _ =>
  }

  lemma CastTestPasses(e: Engine, s: Schema, t: FieldTest, x: Value)
    requires !MissesTest(s, t)
    ensures Passes(e, CastTest(s, t).test, x) <==> PassesCast(e, s, t, x)
  {
    match t.test
    case Is(_) =>
    case Ops(ops) =>
      forall i | 0 <= i < |ops|
        ensures OpHolds(e, CastTest(s, t).test.ops[i], x) <==> OpHoldsCast(e, s, t.path, ops[i], x)
      {
        CastOpHolds(e, s, t.path, ops[i], x);
      }
  }

  lemma UnchangedTestPasses(e: Engine, s: Schema, t: FieldTest, x: Value)
    requires !ChangesTest(s, t)
    ensures Passes(e, t.test, x) <==> PassesCast(e, s, t, x)
  {
    match t.test
    case Is(_) =>
    case Ops(ops) =>
      forall i | 0 <= i < |ops| ensures OpHolds(e, ops[i], x) <==> OpHoldsCast(e, s, t.path, ops[i], x) {
        UnchangedOpHolds(e, s, t.path, ops[i], x);
      }
  }

  lemma {:induction false} UnchangedMatches(e: Engine, s: Schema, q: Query, d: Doc)
    requires !ChangesQuery(s, q)
    ensures Matches(e, q, d) <==> MatchesCast(e, s, q, d)
    decreases q
  {
    forall i | 0 <= i < |q.fields|
      ensures Passes(e, q.fields[i].test, Read(d, q.fields[i].path))
        <==> PassesCast(e, s, q.fields[i], Read(d, q.fields[i].path))
    {
      UnchangedTestPasses(e, s, q.fields[i], Read(d, q.fields[i].path));
    }
    forall i | 0 <= i < |q.ands| ensures Matches(e, q.ands[i], d) <==> MatchesCast(e, s, q.ands[i], d) {
      UnchangedMatches(e, s, q.ands[i], d);
    }
    forall i | 0 <= i < |q.ors| ensures Matches(e, q.ors[i], d) <==> MatchesCast(e, s, q.ors[i], d) {
      UnchangedMatches(e, s, q.ors[i], d);
    }
    forall i | 0 <= i < |q.nors| ensures Matches(e, q.nors[i], d) <==> MatchesCast(e, s, q.nors[i], d) {
      UnchangedMatches(e, s, q.nors[i], d);
    }
  }

  lemma CastFieldsPass(e: Engine, s: Schema, q: Query, d: Doc)
    requires !LooksLikeIR(q) && forall i | 0 <= i < |q.fields| :: !MissesTest(s, q.fields[i])
    ensures FieldsPass(e, Cast(s, q).fields, d) <==> FieldsPassCast(e, s, q.fields, d)
  {
    forall i | 0 <= i < |q.fields|
      ensures Passes(e, Cast(s, q).fields[i].test, Read(d, Cast(s, q).fields[i].path))
        <==> PassesCast(e, s, q.fields[i], Read(d, q.fields[i].path))
    {
      CastTestPasses(e, s, q.fields[i], Read(d, q.fields[i].path));
    }
  }

  // Main result: strict matching of the cast query is matching with cast operands, wherever
  // no node taken for IR and no $not holds an operand that the schema changes.
  lemma {:induction false} CastThenStrict(e: Engine, s: Schema, q: Query, d: Doc)
    requires !Misses(s, q)
    ensures Matches(e, Cast(s, q), d) <==> MatchesCast(e, s, q, d)
    decreases q
  {
    if LooksLikeIR(q) {
      UnchangedMatches(e, s, q, d);
    } else {
      var c := Cast(s, q);
      CastFieldsPass(e, s, q, d);
      forall i | 0 <= i < |q.ands| ensures Matches(e, c.ands[i], d) <==> MatchesCast(e, s, q.ands[i], d) {
        CastThenStrict(e, s, q.ands[i], d);
      }
      forall i | 0 <= i < |q.ors| ensures Matches(e, c.ors[i], d) <==> MatchesCast(e, s, q.ors[i], d) {
        CastThenStrict(e, s, q.ors[i], d);
      }
      forall i | 0 <= i < |q.nors| ensures Matches(e, c.nors[i], d) <==> MatchesCast(e, s, q.nors[i], d) {
        CastThenStrict(e, s, q.nors[i], d);
      }
    }
  }

  // The cast does not change whether the server takes the query.
  lemma {:induction false} CastKeepsAcceptance(s: Schema, q: Query)
    ensures Accepted(Cast(s, q)) <==> Accepted(q)
    decreases q
  {
    if !LooksLikeIR(q) {
      var c := Cast(s, q);
      forall i | 0 <= i < |q.ands| ensures Accepted(c.ands[i]) <==> Accepted(q.ands[i]) {
        CastKeepsAcceptance(s, q.ands[i]);
      }
      forall i | 0 <= i < |q.ors| ensures Accepted(c.ors[i]) <==> Accepted(q.ors[i]) {
        CastKeepsAcceptance(s, q.ors[i]);
      }
      forall i | 0 <= i < |q.nors| ensures Accepted(c.nors[i]) <==> Accepted(q.nors[i]) {
        CastKeepsAcceptance(s, q.nors[i]);
      }
    }
  }

  // ---- A missed operand is told apart by some document -----------------------------------

  // Whether some value lies strictly beyond the bound.
  predicate Exceedable(c: Order, v: Value) {
    match c
    case Gt => !v.Null? && v != Bool(true)
    case Lt => !v.Null? && v != Bool(false) && v != Str("")
    case _ => true
  }

  // Two operands that differ in meaning: bounds that nothing exceeds both match nothing, and
  // lists are compared as sets.
  predicate Distinct(s: Schema, path: string, op: Op)
    requires !op.Not?
  {
    match op
    case Equal(v) => CastValue(s, path, v) != v
    case NotEqual(v) => CastValue(s, path, v) != v
    case Compare(c, v) =>
      var w := CastValue(s, path, v);
      w != v && (Exceedable(c, v) || Exceedable(c, w))
    case In(vs) => (set v | v in vs) != set v | v in CastValues(s, path, vs)
    case Nin(vs) => (set v | v in vs) != set v | v in CastValues(s, path, vs)
    case Regex(_, _) => false
  }

  lemma BeyondExists(c: Order, v: Value) returns (x: Value)
    requires Exceedable(c, v)
    ensures InOrder(c, x, v) && SameType(x, v)
  {
    if c == Gte || c == Lte {
      x := v;
    } else {
      match v
      case Bool(b) => x := Bool(!b);
      case Num(n) => x := Num(if c == Gt then n + 1 else n - 1);
      case Date(t) => x := Date(if c == Gt then t + 1 else t - 1);
      case Oid(h) => x := Oid(if c == Gt then h + 1 else h - 1);
      case Str(t) =>
        if c == Gt {
          x := Str(t + "a");
          PrefixIsLess(t, "a");
        } else {
          x := Str("");
        }
    }
  }

  lemma {:induction false} PrefixIsLess(a: string, b: string)
    requires b != ""
    ensures StrLess(a, a + b)
    decreases |a|
  {
    if a == "" {
      assert a + b == b;
    } else {
      PrefixIsLess(a[1..], b);
      assert (a + b)[1..] == a[1..] + b && (a + b)[0] == a[0];
    }
  }

  lemma NothingBeyond(c: Order, v: Value, x: Value)
    requires !Exceedable(c, v)
    ensures !InOrder(c, x, v)
  {
  }

  lemma BoundsTell(c: Order, v: Value, w: Value) returns (x: Value)
    requires v != w && (Exceedable(c, v) || Exceedable(c, w))
    ensures InOrder(c, x, v) != InOrder(c, x, w)
  {
    if SameType(v, w) {
      LessIsTotal(v, w);
      LessIsTotal(v, v);
      LessIsTotal(w, w);
      if c == Gt || c == Lte {
        x := if Less(v, w) then (if c == Gt then w else v) else if c == Gt then v else w;
      } else {
        x := v;
      }
      if InOrder(c, x, v) == InOrder(c, x, w) {
        x := if x == v then w else v;
      }
    } else if Exceedable(c, v) {
      x := BeyondExists(c, v);
    } else {
      x := BeyondExists(c, w);
    }
  }

  predicate Tells(e: Engine, s: Schema, path: string, op: Op, x: Value) {
    OpHolds(e, op, x) != OpHoldsCast(e, s, path, op, x)
  }

  lemma MembersTell(e: Engine, s: Schema, path: string, op: Op, vs: seq<Value>)
    requires op == In(vs) || op == Nin(vs)
    ensures (exists x :: Tells(e, s, path, op, x)) <==> Distinct(s, path, op)
  {
    var cast := CastValues(s, path, vs);
    forall x ensures Tells(e, s, path, op, x) <==> (x in vs) != (x in cast) {
      CastMember(s, path, vs, x);
    }
    var before, after := set v | v in vs, set v | v in cast;
    if before != after {
      var x :| (x in before) != (x in after);
      assert Tells(e, s, path, op, x);
    } else {
      forall x ensures (x in vs) == (x in cast) {
        assert x in before <==> x in after;
      }
    }
  }

  // Left uncast, an operand is told apart from its cast by some value exactly when the two
  // differ in meaning.
  lemma OperandTells(e: Engine, s: Schema, path: string, op: Op)
    requires !op.Not?
    ensures (exists x :: Tells(e, s, path, op, x)) <==> Distinct(s, path, op)
  {
    match op
    case Equal(v) => assert Distinct(s, path, op) ==> Tells(e, s, path, op, v);
    case NotEqual(v) => assert Distinct(s, path, op) ==> Tells(e, s, path, op, v);
    case Compare(c, v) =>
      var w := CastValue(s, path, v);
      if Distinct(s, path, op) {
        var x := BoundsTell(c, v, w);
        assert Tells(e, s, path, op, x);
      } else if v != w {
        forall x ensures !Tells(e, s, path, op, x) {
          NothingBeyond(c, v, x);
          NothingBeyond(c, w, x);
        }
      }
    case In(vs) => MembersTell(e, s, path, op, vs);
    case Nin(vs) => MembersTell(e, s, path, op, vs);
    case Regex(_, _) =>
  }

  // The cast query and find() disagree about a document.
  predicate Parted(e: Engine, s: Schema, q: Query, d: Doc) {
    Matches(e, Cast(s, q), d) != MatchesCast(e, s, q, d)
  }

  function Negated(path: string, op: Op): Query {
    Field(path, Ops([Op.Not([op])]))
  }

  lemma NegatedMatches(e: Engine, s: Schema, path: string, op: Op, d: Doc)
    ensures Matches(e, Cast(s, Negated(path, op)), d) <==> !OpHolds(e, op, Read(d, path))
  {
    var q, not := Negated(path, op), Op.Not([op]);
    assert OpHolds(e, not, Read(d, path)) <==> !OpHolds(e, [op][0], Read(d, path));
    assert !LooksLikeIR(q) && q.fields == [FieldTest(path, Ops([not]))];
    var t := CastTest(s, q.fields[0]);
    assert Cast(s, q).fields[0] == t && t.test.ops[0] == not;
    assert Passes(e, t.test, Read(d, path)) <==> OpHolds(e, not, Read(d, path));
    assert Matches(e, Cast(s, q), d) <==> Passes(e, t.test, Read(d, path));
  }

  lemma NegatedMatchesCast(e: Engine, s: Schema, path: string, op: Op, d: Doc)
    ensures MatchesCast(e, s, Negated(path, op), d) <==> !OpHoldsCast(e, s, path, op, Read(d, path))
  {
    var q, not := Negated(path, op), Op.Not([op]);
    assert OpHoldsCast(e, s, path, not, Read(d, path)) <==> !OpHoldsCast(e, s, path, [op][0], Read(d, path));
    assert q.fields == [FieldTest(path, Ops([not]))] && [not][0] == not;
    assert PassesCast(e, s, q.fields[0], Read(d, path)) <==> OpHoldsCast(e, s, path, not, Read(d, path));
    assert MatchesCast(e, s, q, d) <==> PassesCast(e, s, q.fields[0], Read(d, path));
  }

  // Main result: under a $not some document parts the cast query from find() exactly when the
  // operand and its cast differ in meaning.
  lemma MissedNotTells(e: Engine, s: Schema, path: string, op: Op)
    requires !op.Not?
    ensures (exists d :: Parted(e, s, Negated(path, op), d))
      <==> Distinct(s, path, op)
  {
    OperandTells(e, s, path, op);
    forall d: Doc
      ensures Matches(e, Cast(s, Negated(path, op)), d) == !OpHolds(e, op, Read(d, path))
      ensures MatchesCast(e, s, Negated(path, op), d) == !OpHoldsCast(e, s, path, op, Read(d, path))
    {
      NegatedMatches(e, s, path, op, d);
      NegatedMatchesCast(e, s, path, op, d);
    }
    if x :| Tells(e, s, path, op, x) {
      var d: Doc := map[path := x];
      assert Read(d, path) == x;
      assert Parted(e, s, Negated(path, op), d);
    }
    if d :| Parted(e, s, Negated(path, op), d) {
      assert Tells(e, s, path, op, Read(d, path));
    }
  }

  // A query on a string field named `op`, with one more test beside it.
  function OnOp(text: string, path: string, op: Op): Query {
    EVERYTHING.(fields := [FieldTest("op", Is(Str(text))), FieldTest(path, Ops([op]))])
  }

  lemma OnOpMatches(e: Engine, s: Schema, text: string, path: string, op: Op, d: Doc)
    requires CastValue(s, "op", Str(text)) == Str(text)
    ensures Matches(e, Cast(s, OnOp(text, path, op)), d)
      <==> Read(d, "op") == Str(text) && OpHolds(e, op, Read(d, path))
    ensures MatchesCast(e, s, OnOp(text, path, op), d)
      <==> Read(d, "op") == Str(text) && OpHoldsCast(e, s, path, op, Read(d, path))
  {
    var q := OnOp(text, path, op);
    assert q.fields[0] == FieldTest("op", Is(Str(text)));
    assert LooksLikeIR(q);
    var t := FieldTest(path, Ops([op]));
    assert q.fields[1] == t && [op][0] == op;
    assert Passes(e, t.test, Read(d, path)) <==> OpHolds(e, op, Read(d, path));
    assert PassesCast(e, s, t, Read(d, path)) <==> OpHoldsCast(e, s, path, op, Read(d, path));
    assert PassesCast(e, s, q.fields[0], Read(d, "op")) <==> Read(d, "op") == Str(text);
    assert FieldsPass(e, q.fields, d)
      <==> Passes(e, q.fields[0].test, Read(d, "op")) && Passes(e, q.fields[1].test, Read(d, path));
    assert FieldsPassCast(e, s, q.fields, d)
      <==> PassesCast(e, s, q.fields[0], Read(d, "op")) && PassesCast(e, s, q.fields[1], Read(d, path));
  }

  // Main result: beside a string field named `op` some document parts the query from find()
  // exactly when the other operand and its cast differ in meaning.
  lemma MissedBesideOpTells(e: Engine, s: Schema, text: string, path: string, op: Op)
    requires !op.Not? && path != "op" && CastValue(s, "op", Str(text)) == Str(text)
    ensures (exists d :: Parted(e, s, OnOp(text, path, op), d))
      <==> Distinct(s, path, op)
  {
    OperandTells(e, s, path, op);
    forall d: Doc
      ensures Matches(e, Cast(s, OnOp(text, path, op)), d)
        == (Read(d, "op") == Str(text) && OpHolds(e, op, Read(d, path)))
      ensures MatchesCast(e, s, OnOp(text, path, op), d)
        == (Read(d, "op") == Str(text) && OpHoldsCast(e, s, path, op, Read(d, path)))
    {
      OnOpMatches(e, s, text, path, op, d);
    }
    if x :| Tells(e, s, path, op, x) {
      var d: Doc := map["op" := Str(text), path := x];
      assert Read(d, path) == x && Read(d, "op") == Str(text);
      assert Parted(e, s, OnOp(text, path, op), d);
    }
    if d :| Parted(e, s, OnOp(text, path, op), d) {
      assert Tells(e, s, path, op, Read(d, path));
    }
  }

  // { age: { $not: { $gt: '42' } } } on a number column keeps the string bound.
  lemma NotIsNotCast(e: Engine, s: Schema)
    requires s("age", Str("42")) == Some(Num(42))
    ensures
      var q, d := Negated("age", Compare(Gt, Str("42"))), map["age" := Num(50)];
      Matches(e, Cast(s, q), d) && !MatchesCast(e, s, q, d)
  {
    NegatedMatches(e, s, "age", Compare(Gt, Str("42")), map["age" := Num(50)]);
    NegatedMatchesCast(e, s, "age", Compare(Gt, Str("42")), map["age" := Num(50)]);
  }

  // { op: 'add', org: '7' } is not cast at all, so its id operand misses.
  lemma OpFieldIsNotCast(e: Engine, s: Schema)
    requires s("op", Str("add")) == Some(Str("add")) && s("org", Str("7")) == Some(Oid(7))
    ensures
      var q, d := OnOp("add", "org", Equal(Str("7"))), map["op" := Str("add"), "org" := Oid(7)];
      !Matches(e, Cast(s, q), d) && MatchesCast(e, s, q, d)
  {
    OnOpMatches(e, s, "add", "org", Equal(Str("7")), map["op" := Str("add"), "org" := Oid(7)]);
  }

  // ---- Idempotence -----------------------------------------------------------------------

  ghost predicate IdempotentValues(s: Schema) {
    forall p, v :: CastValue(s, p, CastValue(s, p, v)) == CastValue(s, p, v)
  }

  lemma CastTestIdempotent(s: Schema, t: FieldTest)
    requires IdempotentValues(s)
    ensures CastTest(s, CastTest(s, t)) == CastTest(s, t)
  {
    match t.test
    case Is(_) =>
    case Ops(ops) =>
      var once := CastTest(s, t).test.ops;
      var twice := CastTest(s, CastTest(s, t)).test.ops;
      forall i | 0 <= i < |ops|
        ensures twice[i] == once[i]
      {
        match ops[i]
        case In(vs) => assert twice[i].vs == once[i].vs;
        case Nin(vs) => assert twice[i].vs == once[i].vs;
        case _ =>
      }
      assert twice == once;
  }

  // Casting twice is casting once, when value casting is idempotent.
  lemma {:induction false} CastIdempotent(s: Schema, q: Query)
    requires IdempotentValues(s)
    ensures Cast(s, Cast(s, q)) == Cast(s, q)
    decreases q
  {
    var once := Cast(s, q);
    if !LooksLikeIR(q) && !LooksLikeIR(once) {
      var twice := Cast(s, once);
      forall i | 0 <= i < |q.fields| ensures twice.fields[i] == once.fields[i] {
        CastTestIdempotent(s, q.fields[i]);
      }
      forall i | 0 <= i < |q.ands| ensures twice.ands[i] == once.ands[i] { CastIdempotent(s, q.ands[i]); }
      forall i | 0 <= i < |q.ors| ensures twice.ors[i] == once.ors[i] { CastIdempotent(s, q.ors[i]); }
      forall i | 0 <= i < |q.nors| ensures twice.nors[i] == once.nors[i] { CastIdempotent(s, q.nors[i]); }
      forall i | 0 <= i < |q.nots| ensures twice.nots[i] == once.nots[i] { CastIdempotent(s, q.nots[i]); }
      assert twice.fields == once.fields && twice.ands == once.ands && twice.nots == once.nots;
      assert twice.ors == once.ors && twice.nors == once.nors;
    }
  }

  // ---- The loops, which return the given object when nothing changed ---------------------

  method CastOperatorObject(s: Schema, path: string, ops: seq<Op>) returns (r: seq<Op>)
    ensures Ops(r) == CastTest(s, FieldTest(path, Ops(ops))).test
  {
    var changed := false;
    var out: seq<Op> := [];
    for i := 0 to |ops|
      invariant |out| == i
      invariant forall j | 0 <= j < i :: out[j] == CastOp(s, path, ops[j])
      invariant !changed ==> out == ops[..i]
    {
      var next := CastOp(s, path, ops[i]);
      out := out + [next];
      if next != ops[i] {
        changed := true;
      }
    }
    r := if changed then out else ops;
    assert r == CastTest(s, FieldTest(path, Ops(ops))).test.ops;
  }

  method CastClauses(s: Schema, qs: seq<Query>) returns (r: seq<Query>, changed: bool)
    ensures |r| == |qs| && forall i | 0 <= i < |qs| :: r[i] == Cast(s, qs[i])
    ensures !changed ==> r == qs
    decreases qs, 0
  {
    r, changed := [], false;
    for i := 0 to |qs|
      invariant |r| == i
      invariant forall j | 0 <= j < i :: r[j] == Cast(s, qs[j])
      invariant !changed ==> r == qs[..i]
    {
      var next := CastFilterToSchema(s, qs[i]);
      r := r + [next];
      if next != qs[i] {
        changed := true;
      }
    }
  }

  method CastFields(s: Schema, fields: seq<FieldTest>) returns (r: seq<FieldTest>, changed: bool)
    ensures |r| == |fields| && forall i | 0 <= i < |fields| :: r[i] == CastTest(s, fields[i])
    ensures !changed ==> r == fields
  {
    r, changed := [], false;
    for i := 0 to |fields|
      invariant |r| == i
      invariant forall j | 0 <= j < i :: r[j] == CastTest(s, fields[j])
      invariant !changed ==> r == fields[..i]
    {
      var path := fields[i].path;
      var test := fields[i].test;
      match test {
        case Ops(ops) =>
          var next := CastOperatorObject(s, path, ops);
          r := r + [FieldTest(path, Ops(next))];
          changed := changed || next != ops;
        case Is(v) =>
          var next := CastValue(s, path, v);
          r := r + [FieldTest(path, Is(next))];
          changed := changed || next != v;
      }
    }
  }

  method CastFilterToSchema(s: Schema, q: Query) returns (r: Query)
    ensures r == Cast(s, q)
    decreases q
  {
    if LooksLikeIR(q) {
      return q;
    }
    var fields, c0 := CastFields(s, q.fields);
    var ands, c1 := CastClauses(s, q.ands);
    var ors, c2 := CastClauses(s, q.ors);
    var nors, c3 := CastClauses(s, q.nors);
    var nots, c4 := CastClauses(s, q.nots);
    var cast := Cast(s, q);
    assert cast.fields == fields && cast.ands == ands && cast.ors == ors && cast.nors == nors && cast.nots == nots;
    if c0 || c1 || c2 || c3 || c4 {
      r := Query(fields, ands, ors, nors, nots, q.exprs, q.texts);
    } else {
      r := q;
    }
  }
}

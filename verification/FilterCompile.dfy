// The Filter IR and its two compilers: to a query object and to an aggregation expression.

module FilterIR {
  import opened Queries
  import opened Like

  datatype Filter =
    | True
    | False
    | Eq(field: string, value: Value)
    | Ne(field: string, value: Value)
    | Ordered(order: Order, field: string, value: Value)
    | In(field: string, values: seq<Value>)
    | Nin(field: string, values: seq<Value>)
    | Exists(field: string, exists_: bool)
    | Like(field: string, pattern: string, sensitive: bool)
    | Regex(field: string, pattern: string, flags: string)
    | And(children: seq<Filter>)
    | Or(children: seq<Filter>)
    | Not(child: Filter)
    | Raw(sql: string)

  function CaseOf(fold: char -> char, sensitive: bool): Case {
    if sensitive then Sensitive else Insensitive(fold)
  }

  // What the IR means: SQL predicates over the document's fields, a missing field being
  // null and a comparison with null being false.
  ghost predicate Holds(e: Engine, fold: char -> char, f: Filter, d: Doc)
    decreases f
  {
    match f
    case True => true
    case False => false
    case Eq(x, v) => Read(d, x) == v
    case Ne(x, v) => Read(d, x) != v && Read(d, x) != Null
    case Ordered(c, x, v) => v != Null && Read(d, x) != Null && InOrder(c, Read(d, x), v)
    case In(x, vs) => exists i | 0 <= i < |vs| :: Read(d, x) == vs[i]
    case Nin(x, vs) => forall i | 0 <= i < |vs| :: Read(d, x) != vs[i]
    case Exists(x, b) => b <==> Read(d, x) != Null
    case Like(x, p, s) => Read(d, x).Str? && LikeMatches(CaseOf(fold, s), p, Read(d, x).s)
    case Regex(x, p, flags) => Read(d, x).Str? && e.regex(p, flags, Read(d, x).s)
    case And(fs) => forall i | 0 <= i < |fs| :: Holds(e, fold, fs[i], d)
    case Or(fs) => exists i | 0 <= i < |fs| :: Holds(e, fold, fs[i], d)
    case Not(g) => !Holds(e, fold, g, d)
    case Raw(_) => false
  }

  predicate HasRaw(f: Filter) {
    match f
    case Raw(_) => true
    case And(fs) => exists i | 0 <= i < |fs| :: HasRaw(fs[i])
    case Or(fs) => exists i | 0 <= i < |fs| :: HasRaw(fs[i])
    case Not(g) => HasRaw(g)
    case _ => false
  }

  // Where Mongo's null comparison departs from SQL's: { $gte: null } and { $lte: null }
  // match null.
  predicate NullSafe(f: Filter) {
    match f
    case Ordered(c, _, v) => v == Null ==> c != Gte && c != Lte
    case And(fs) => forall i | 0 <= i < |fs| :: NullSafe(fs[i])
    case Or(fs) => forall i | 0 <= i < |fs| :: NullSafe(fs[i])
    case Not(g) => NullSafe(g)
    case _ => true
  }

  predicate OneLineDoc(d: Doc) {
    forall x | x in d && d[x].Str? :: OneLine(d[x].s)
  }
}

module CompileQuery {
  import opened Common
  import opened Queries
  import opened Like
  import opened FilterIR

  datatype Error = RawFilter

  const NOTHING := EVERYTHING.(exprs := [false])

  function Only(x: string, op: Op): Query {
    Field(x, Ops([op]))
  }

  function Compile(f: Filter): Result<Query, Error> {
    match f
    case True => Ok(EVERYTHING)
    case False => Ok(NOTHING)
    case Eq(x, v) => Ok(Field(x, Is(v)))
    case Ne(x, v) =>
      Ok(if v == Null then Only(x, NotEqual(Null))
         else EVERYTHING.(ands := [Only(x, NotEqual(v)), Only(x, NotEqual(Null))]))
    case Ordered(c, x, v) => Ok(Only(x, Compare(c, v)))
    case In(x, vs) => Ok(if vs == [] then NOTHING else Only(x, Queries.In(vs)))
    case Nin(x, vs) => Ok(if vs == [] then EVERYTHING else Only(x, Queries.Nin(vs)))
    case Exists(x, b) => Ok(if b then Only(x, NotEqual(Null)) else Field(x, Is(Null)))
    case Like(x, p, s) => Ok(Only(x, Queries.Regex(LikeRegex(p), if s then "" else "i")))
    case Regex(x, p, flags) => Ok(Only(x, Queries.Regex(p, flags)))
    case And(fs) =>
      var parts := CompileAll(fs);
      if parts.Err? then Err(parts.error)
      else Ok(if |fs| == 0 then EVERYTHING else if |fs| == 1 then parts.value[0] else EVERYTHING.(ands := parts.value))
    case Or(fs) =>
      var parts := CompileAll(fs);
      if parts.Err? then Err(parts.error)
      else Ok(if |fs| == 0 then NOTHING else if |fs| == 1 then parts.value[0] else EVERYTHING.(ors := parts.value))
    case Not(g) =>
      var part := Compile(g);
      if part.Err? then part else Ok(EVERYTHING.(nors := [part.value]))
    case Raw(_) => Err(RawFilter)
  }

  function CompileAll(fs: seq<Filter>): (r: Result<seq<Query>, Error>)
    ensures r.Ok? ==> |r.value| == |fs|
  {
    if fs == [] then Ok([])
    else
      var first := Compile(fs[0]);
      if first.Err? then Err(first.error)
      else
        var rest := CompileAll(fs[1..]);
        if rest.Err? then rest else Ok([first.value] + rest.value)
  }

  lemma {:induction false} CompileAllIsPointwise(fs: seq<Filter>)
    ensures CompileAll(fs).Ok? <==> forall i | 0 <= i < |fs| :: Compile(fs[i]).Ok?
    ensures CompileAll(fs).Ok? ==> forall i | 0 <= i < |fs| :: CompileAll(fs).value[i] == Compile(fs[i]).value
    decreases |fs|
  {
    if fs != [] {
      CompileAllIsPointwise(fs[1..]);
      assert forall i | 0 <= i < |fs[1..]| :: fs[1..][i] == fs[i + 1];
      if CompileAll(fs).Err? && Compile(fs[0]).Ok? {
        var i :| 0 <= i < |fs[1..]| && Compile(fs[1..][i]).Err?;
        assert Compile(fs[i + 1]).Err?;
      }
    }
  }

  // Compilation fails exactly on filters that contain a raw node.
  lemma {:induction false} FailsExactlyOnRaw(f: Filter)
    ensures Compile(f).Err? <==> HasRaw(f)
    decreases f
  {
    match f
    case And(fs) =>
      CompileAllIsPointwise(fs);
      forall i | 0 <= i < |fs| ensures Compile(fs[i]).Err? <==> HasRaw(fs[i]) { FailsExactlyOnRaw(fs[i]); }
    case Or(fs) =>
      CompileAllIsPointwise(fs);
      forall i | 0 <= i < |fs| ensures Compile(fs[i]).Err? <==> HasRaw(fs[i]) { FailsExactlyOnRaw(fs[i]); }
    case Not(g) => FailsExactlyOnRaw(g);
    case _ =>
  }

  lemma OnlyMatches(e: Engine, x: string, op: Op, d: Doc)
    ensures Matches(e, Only(x, op), d) <==> OpHolds(e, op, Read(d, x))
  {
    var q := Only(x, op);
    assert q.fields[0] == FieldTest(x, Ops([op])) && [op][0] == op;
    assert Passes(e, Ops([op]), Read(d, x)) <==> OpHolds(e, op, Read(d, x));
  }

  lemma IsMatches(e: Engine, x: string, v: Value, d: Doc)
    ensures Matches(e, Field(x, Is(v)), d) <==> Read(d, x) == v
  {
    assert Field(x, Is(v)).fields[0] == FieldTest(x, Is(v));
  }

  lemma LikeLeaf(e: Engine, fold: char -> char, x: string, p: string, s: bool, d: Doc)
    requires ReadsDialect(e.regex, fold) && OneLineDoc(d)
    ensures Matches(e, Only(x, Queries.Regex(LikeRegex(p), if s then "" else "i")), d)
      <==> Holds(e, fold, Like(x, p, s), d)
  {
    OnlyMatches(e, x, Queries.Regex(LikeRegex(p), if s then "" else "i"), d);
    if Read(d, x).Str? {
      LikeIsPreserved(CaseOf(fold, s), p, Read(d, x).s);
    }
  }

  lemma NeMatches(e: Engine, x: string, v: Value, d: Doc)
    requires v != Null
    ensures Matches(e, Compile(Ne(x, v)).value, d) <==> Read(d, x) != v && Read(d, x) != Null
  {
    OnlyMatches(e, x, NotEqual(v), d);
    OnlyMatches(e, x, NotEqual(Null), d);
    var parts := [Only(x, NotEqual(v)), Only(x, NotEqual(Null))];
    AndsMatch(e, parts, d);
    assert Matches(e, parts[0], d) && Matches(e, parts[1], d)
      <==> forall i | 0 <= i < |parts| :: Matches(e, parts[i], d);
  }

  lemma ListLeaf(e: Engine, fold: char -> char, f: Filter, d: Doc)
    requires f.In? || f.Nin?
    ensures Matches(e, Compile(f).value, d) <==> Holds(e, fold, f, d)
  {
    match f
    case In(x, vs) => if vs == [] { NothingMatches(e, d); } else { OnlyMatches(e, x, Queries.In(vs), d); }
    case Nin(x, vs) => if vs != [] { OnlyMatches(e, x, Queries.Nin(vs), d); }
  }

  lemma ScalarLeaf(e: Engine, fold: char -> char, f: Filter, d: Doc)
    requires f.Eq? || f.Ne? || f.Ordered? || f.Exists?
    requires NullSafe(f)
    ensures Matches(e, Compile(f).value, d) <==> Holds(e, fold, f, d)
  {
    match f
    case Eq(x, v) => IsMatches(e, x, v, d);
    case Ne(x, v) => if v == Null { OnlyMatches(e, x, NotEqual(Null), d); } else { NeMatches(e, x, v, d); }
    case Ordered(c, x, v) => OnlyMatches(e, x, Compare(c, v), d);
    case Exists(x, b) =>
      OnlyMatches(e, x, NotEqual(Null), d);
      IsMatches(e, x, Null, d);
  }

  lemma Leaf(e: Engine, fold: char -> char, f: Filter, d: Doc)
    requires ReadsDialect(e.regex, fold) && OneLineDoc(d)
    requires !f.And? && !f.Or? && !f.Not? && !f.Raw? && NullSafe(f)
    ensures Matches(e, Compile(f).value, d) <==> Holds(e, fold, f, d)
  {
    match f
    case True =>
    case False => NothingMatches(e, d);
    case Eq(_, _) => ScalarLeaf(e, fold, f, d);
    case Ne(_, _) => ScalarLeaf(e, fold, f, d);
    case Ordered(_, _, _) => ScalarLeaf(e, fold, f, d);
    case Exists(_, _) => ScalarLeaf(e, fold, f, d);
    case In(_, _) => ListLeaf(e, fold, f, d);
    case Nin(_, _) => ListLeaf(e, fold, f, d);
    case Like(x, p, s) => LikeLeaf(e, fold, x, p, s, d);
    case Regex(x, p, flags) => OnlyMatches(e, x, Queries.Regex(p, flags), d);
  }

  lemma NothingMatches(e: Engine, d: Doc)
    ensures !Matches(e, NOTHING, d)
  {
    assert !NOTHING.exprs[0];
  }

  ghost predicate Agree(e: Engine, fold: char -> char, fs: seq<Filter>, d: Doc) {
    forall i | 0 <= i < |fs| ::
      Compile(fs[i]).Ok? && (Matches(e, Compile(fs[i]).value, d) <==> Holds(e, fold, fs[i], d))
  }

  lemma AndsMatch(e: Engine, parts: seq<Query>, d: Doc)
    ensures Matches(e, EVERYTHING.(ands := parts), d) <==> forall i | 0 <= i < |parts| :: Matches(e, parts[i], d)
  {
  }

  lemma OrsMatch(e: Engine, parts: seq<Query>, d: Doc)
    requires parts != []
    ensures Matches(e, EVERYTHING.(ors := parts), d) <==> exists i | 0 <= i < |parts| :: Matches(e, parts[i], d)
  {
  }

  lemma Conjunction(e: Engine, fold: char -> char, fs: seq<Filter>, d: Doc)
    requires Agree(e, fold, fs, d)
    ensures Compile(And(fs)).Ok? && (Matches(e, Compile(And(fs)).value, d) <==> Holds(e, fold, And(fs), d))
  {
    CompileAllIsPointwise(fs);
    if |fs| == 1 {
      assert Compile(And(fs)).value == Compile(fs[0]).value;
    } else {
      var parts := CompileAll(fs).value;
      assert Compile(And(fs)).value == EVERYTHING.(ands := parts);
      AndsMatch(e, parts, d);
    }
  }

  lemma Disjunction(e: Engine, fold: char -> char, fs: seq<Filter>, d: Doc)
    requires Agree(e, fold, fs, d)
    ensures Compile(Or(fs)).Ok? && (Matches(e, Compile(Or(fs)).value, d) <==> Holds(e, fold, Or(fs), d))
  {
    CompileAllIsPointwise(fs);
    NothingMatches(e, d);
    var parts := CompileAll(fs).value;
    if |fs| == 1 {
      assert Compile(Or(fs)).value == parts[0];
    } else if |fs| > 1 {
      assert Compile(Or(fs)).value == EVERYTHING.(ors := parts);
      OrsMatch(e, parts, d);
      if i :| 0 <= i < |parts| && Matches(e, parts[i], d) {
        assert Holds(e, fold, fs[i], d);
      }
    }
  }

  // Main result: the compiled query matches a document exactly when the filter holds of it.
  lemma {:induction false} CompilePreservesMeaning(e: Engine, fold: char -> char, f: Filter, d: Doc)
    requires ReadsDialect(e.regex, fold) && OneLineDoc(d)
    requires !HasRaw(f) && NullSafe(f)
    ensures Compile(f).Ok? && (Matches(e, Compile(f).value, d) <==> Holds(e, fold, f, d))
    decreases f
  {
    match f
    case And(fs) =>
      AllPreserved(e, fold, fs, d);
      Conjunction(e, fold, fs, d);
    case Or(fs) =>
      AllPreserved(e, fold, fs, d);
      Disjunction(e, fold, fs, d);
    case Not(g) =>
      CompilePreservesMeaning(e, fold, g, d);
      NorMatch(e, Compile(g).value, d);
    case _ => Leaf(e, fold, f, d);
  }

  lemma NorMatch(e: Engine, q: Query, d: Doc)
    ensures Matches(e, EVERYTHING.(nors := [q]), d) <==> !Matches(e, q, d)
  {
    assert [q][0] == q;
  }

  lemma {:induction false} AllPreserved(e: Engine, fold: char -> char, fs: seq<Filter>, d: Doc)
    requires ReadsDialect(e.regex, fold) && OneLineDoc(d)
    requires forall i | 0 <= i < |fs| :: !HasRaw(fs[i]) && NullSafe(fs[i])
    ensures Agree(e, fold, fs, d)
    decreases fs
  {
    forall i | 0 <= i < |fs|
      ensures Compile(fs[i]).Ok? && (Matches(e, Compile(fs[i]).value, d) <==> Holds(e, fold, fs[i], d))
    {
      CompilePreservesMeaning(e, fold, fs[i], d);
    }
  }

  // Outside NullSafe it fails: a comparison with null matches what SQL excludes.
  lemma NullBoundDiffers(e: Engine, fold: char -> char, c: Order, x: string, d: Doc)
    requires c == Gte || c == Lte
    ensures !Holds(e, fold, Ordered(c, x, Null), d)
    ensures Matches(e, Compile(Ordered(c, x, Null)).value, d) <==> Read(d, x) == Null
  {
    OnlyMatches(e, x, Compare(c, Null), d);
  }
}

module CompileExpr {
  import opened Common
  import opened Queries
  import opened Like
  import opened FilterIR
  import CompileQuery

  datatype Relation = Equals | Differs | Ranks(order: Order)

  // An operand as the server parses it: a string that begins with a dollar sign is a field
  // path, a variable, or malformed.
  datatype Term = Literal(v: Value) | Path(field: string) | Variable(name: string) | Malformed

  // Aggregation expressions over the fields of a document.
  datatype Expr =
    | Lit(b: bool)
    | Relate(rel: Relation, field: string, term: Term)
    | Among(field: string, terms: seq<Term>)
    | RegexMatch(field: string, pattern: Term, options: string)
    | All(args: seq<Expr>)
    | Any(args: seq<Expr>)
    | Negate(arg: Expr)

  predicate ValidPath(p: string) {
    && p != "" && p[0] != '.'
    && forall i | 0 <= i < |p| ::
         p[i] != '\0' && (p[i] == '.' ==> i + 1 < |p| && p[i + 1] != '.' && p[i + 1] != '$')
  }

  predicate Dollared(v: Value) {
    v.Str? && v.s != "" && v.s[0] == '$'
  }

  // Operands are emitted as they are, without $literal.
  function TermOf(v: Value): Term {
    if !Dollared(v) then Literal(v)
    else if |v.s| > 1 && v.s[1] == '$' then Variable(v.s[2..])
    else if ValidPath(v.s[1..]) then Path(v.s[1..])
    else Malformed
  }

  function TermsOf(vs: seq<Value>): seq<Term> {
    seq(|vs|, i requires 0 <= i < |vs| => TermOf(vs[i]))
  }

  function Compile(f: Filter): Result<Expr, CompileQuery.Error> {
    match f
    case True => Ok(Lit(true))
    case False => Ok(Lit(false))
    case Eq(x, v) => Ok(Relate(Equals, x, TermOf(v)))
    case Ne(x, v) =>
      Ok(if v == Null then Relate(Differs, x, Literal(Null))
         else All([Relate(Differs, x, TermOf(v)), Relate(Differs, x, Literal(Null))]))
    case Ordered(c, x, v) => Ok(Relate(Ranks(c), x, TermOf(v)))
    case In(x, vs) => Ok(if vs == [] then Lit(false) else Among(x, TermsOf(vs)))
    case Nin(x, vs) => Ok(if vs == [] then Lit(true) else Negate(Among(x, TermsOf(vs))))
    case Exists(x, b) => Ok(Relate(if b then Differs else Equals, x, Literal(Null)))
    case Like(x, p, s) => Ok(RegexMatch(x, TermOf(Str(LikeRegex(p))), if s then "" else "i"))
    case Regex(x, p, flags) => Ok(RegexMatch(x, TermOf(Str(p)), flags))
    case And(fs) =>
      var parts := CompileAll(fs);
      if parts.Err? then Err(parts.error)
      else Ok(if |fs| == 0 then Lit(true) else if |fs| == 1 then parts.value[0] else All(parts.value))
    case Or(fs) =>
      var parts := CompileAll(fs);
      if parts.Err? then Err(parts.error)
      else Ok(if |fs| == 0 then Lit(false) else if |fs| == 1 then parts.value[0] else Any(parts.value))
    case Not(g) =>
      var part := Compile(g);
      if part.Err? then part else Ok(Negate(part.value))
    case Raw(_) => Err(CompileQuery.RawFilter)
  }

  function CompileAll(fs: seq<Filter>): (r: Result<seq<Expr>, CompileQuery.Error>)
    ensures r.Ok? ==> |r.value| == |fs|
  {
    if fs == [] then Ok([])
    else
      var first := Compile(fs[0]);
      if first.Err? then Err(first.error)
      else
        var rest := CompileAll(fs[1..]);
        if rest.Err? then rest else Ok([first.value] + rest.value)
  }

  // The server orders any two values, types first; a missing field is below null.
  function Rank(o: Operand): nat {
    match o
    case Scalar(Null) => 1
    case Scalar(Num(_)) => 2
    case Scalar(Str(_)) => 3
    case Document => 4
    case Scalar(Oid(_)) => 5
    case Scalar(Bool(_)) => 6
    case Scalar(Date(_)) => 7
    case _ => 0
  }

  function Here(d: Doc, x: string): Operand {
    if x in d then Scalar(d[x]) else Absent
  }

  function Resolve(e: Engine, t: Term, d: Doc): Operand {
    match t
    case Literal(v) => Scalar(v)
    case Path(f) => Here(d, f)
    case Variable(n) => e.variable(n, d)
    case Malformed => Unknown
  }

  predicate Related(rel: Relation, a: Operand, b: Operand) {
    match rel
    case Equals => a == b
    case Differs => a != b
    case Ranks(c) =>
      if a.Scalar? && b.Scalar? && Rank(a) == Rank(b) then InOrder(c, a.v, b.v)
      else if a == b then c == Gte || c == Lte
      else if c == Gt || c == Gte then Rank(a) > Rank(b)
      else Rank(a) < Rank(b)
  }

  // As an element of an array expression a missing value is null.
  function Element(o: Operand): Operand {
    if o == Absent then Scalar(Null) else o
  }

  predicate Nullish(o: Operand) {
    o == Absent || o == Scalar(Null)
  }

  predicate IsText(o: Operand) {
    o.Scalar? && o.v.Str?
  }

  // The value of an expression; None is an error: an operand the server does not know, or an
  // input or pattern of $regexMatch that is neither a string nor null nor missing.
  function Eval(e: Engine, x: Expr, d: Doc): Option<bool> {
    match x
    case Lit(b) => Some(b)
    case Relate(rel, f, t) =>
      if Resolve(e, t, d) == Unknown then None else Some(Related(rel, Here(d, f), Resolve(e, t, d)))
    case Among(f, ts) =>
      if exists i | 0 <= i < |ts| :: Resolve(e, ts[i], d) == Unknown then None
      else Some(exists i | 0 <= i < |ts| :: Element(Resolve(e, ts[i], d)) == Here(d, f))
    case RegexMatch(f, t, o) =>
      var input, pattern := Here(d, f), Resolve(e, t, d);
      if !(Nullish(input) || IsText(input)) || !(Nullish(pattern) || IsText(pattern)) then None
      else Some(IsText(input) && IsText(pattern) && e.regex(pattern.v.s, o, input.v.s))
    case All(args) =>
      if exists i | 0 <= i < |args| :: Eval(e, args[i], d).None? then None
      else Some(forall i | 0 <= i < |args| :: Eval(e, args[i], d).value)
    case Any(args) =>
      if exists i | 0 <= i < |args| :: Eval(e, args[i], d).None? then None
      else Some(exists i | 0 <= i < |args| :: Eval(e, args[i], d).value)
    case Negate(arg) =>
      var r := Eval(e, arg, d);
      if r.None? then None else Some(!r.value)
  }

  ghost predicate Agrees(e: Engine, f: Filter, d: Doc) {
    Compile(f).Ok? && CompileQuery.Compile(f).Ok?
    && Eval(e, Compile(f).value, d) == Some(Matches(e, CompileQuery.Compile(f).value, d))
  }

  // Where the two forms of a leaf with literal operands agree: null tests need the field
  // present, patterns a field without a value of another type, and an order comparison one
  // type on both sides, or ranks that happen to answer false.
  predicate Plain(f: Filter, d: Doc) {
    match f
    case Eq(x, v) => x in d || v != Null
    case Ne(x, _) => x in d
    case Ordered(c, x, v) =>
      if x in d && SameType(d[x], v) then true
      else if x !in d && v == Null then c == Gt || c == Lte
      else if c == Gt || c == Gte then Rank(Here(d, x)) < Rank(Scalar(v))
      else Rank(Here(d, x)) > Rank(Scalar(v))
    case In(x, vs) => x in d || Null !in vs
    case Nin(x, vs) => x in d || Null !in vs
    case Exists(x, _) => x in d
    case Like(x, _, _) => Read(d, x).Str? || Read(d, x).Null?
    case Regex(x, _, _) => Read(d, x).Str? || Read(d, x).Null?
    case _ => true
  }

  // No operand begins with a dollar sign.
  predicate DollarFree(f: Filter) {
    match f
    case Eq(_, v) => !Dollared(v)
    case Ne(_, v) => !Dollared(v)
    case Ordered(_, _, v) => !Dollared(v)
    case In(_, vs) => forall i | 0 <= i < |vs| :: !Dollared(vs[i])
    case Nin(_, vs) => forall i | 0 <= i < |vs| :: !Dollared(vs[i])
    case Regex(_, p, _) => !Dollared(Str(p))
    case _ => true
  }

  // With a dollared operand the document decides: what the operand stands for there must
  // relate to the field as the operand's own text does.
  predicate Coincides(e: Engine, f: Filter, d: Doc) {
    match f
    case Eq(x, v) =>
      var b := Resolve(e, TermOf(v), d);
      b != Unknown && (Here(d, x) == b <==> Here(d, x) == Scalar(v))
    case Ne(x, v) =>
      var b := Resolve(e, TermOf(v), d);
      && b != Unknown
      && (if x !in d then b == Absent
          else d[x] == Null || (Here(d, x) == b <==> Here(d, x) == Scalar(v)))
    case Ordered(c, x, v) =>
      var b := Resolve(e, TermOf(v), d);
      b != Unknown && (Related(Ranks(c), Here(d, x), b) <==> Read(d, x).Str? && InOrder(c, Read(d, x), v))
    case In(x, vs) => MembersCoincide(e, x, vs, d)
    case Nin(x, vs) => MembersCoincide(e, x, vs, d)
    case Regex(x, p, flags) =>
      var b := Resolve(e, TermOf(Str(p)), d);
      && (Nullish(b) || IsText(b)) && (Read(d, x).Str? || Read(d, x).Null?)
      && (Read(d, x).Str? ==>
            (e.regex(p, flags, Read(d, x).s) <==> IsText(b) && e.regex(b.v.s, flags, Read(d, x).s)))
    case _ => true
  }

  predicate MembersCoincide(e: Engine, x: string, vs: seq<Value>, d: Doc) {
    && (forall i | 0 <= i < |vs| :: Resolve(e, TermOf(vs[i]), d) != Unknown)
    && ((exists i | 0 <= i < |vs| :: Element(Resolve(e, TermOf(vs[i]), d)) == Here(d, x)) <==> Read(d, x) in vs)
  }

  predicate Comparable(e: Engine, f: Filter, d: Doc) {
    if DollarFree(f) then Plain(f, d) else Coincides(e, f, d)
  }

  predicate IsLeaf(f: Filter) {
    !f.And? && !f.Or? && !f.Not? && !f.Raw?
  }

  lemma SameRankIsSameType(a: Value, b: Value)
    ensures SameType(a, b) <==> Rank(Scalar(a)) == Rank(Scalar(b))
  {
  }

  lemma MistypedIsUnordered(c: Order, a: Value, b: Value)
    requires !SameType(a, b)
    ensures !InOrder(c, a, b)
  {
  }

  // What the expression of an order comparison says of a field against an operand.
  lemma OrderedValue(e: Engine, c: Order, x: string, v: Value, d: Doc)
    ensures
      var b := Resolve(e, TermOf(v), d);
      Agrees(e, Ordered(c, x, v), d) ==
      (b != Unknown && (Related(Ranks(c), Here(d, x), b) <==> InOrder(c, Read(d, x), v)))
  {
    CompileQuery.OnlyMatches(e, x, Queries.Compare(c, v), d);
  }

  lemma OrderedLeaf(e: Engine, c: Order, x: string, v: Value, d: Doc)
    ensures Agrees(e, Ordered(c, x, v), d) <==> Comparable(e, Ordered(c, x, v), d)
  {
    OrderedValue(e, c, x, v, d);
    if !SameType(Read(d, x), v) {
      MistypedIsUnordered(c, Read(d, x), v);
    }
    if x in d {
      SameRankIsSameType(d[x], v);
    }
  }

  lemma AllEval(e: Engine, args: seq<Expr>, parts: seq<Query>, d: Doc)
    requires |args| == |parts|
    requires forall i | 0 <= i < |args| :: Eval(e, args[i], d) == Some(Matches(e, parts[i], d))
    ensures Eval(e, All(args), d) == Some(Matches(e, EVERYTHING.(ands := parts), d))
  {
    CompileQuery.AndsMatch(e, parts, d);
    assert Eval(e, All(args), d) == Some(forall i | 0 <= i < |args| :: Eval(e, args[i], d).value);
  }

  lemma AnyEval(e: Engine, args: seq<Expr>, parts: seq<Query>, d: Doc)
    requires |args| == |parts| && parts != []
    requires forall i | 0 <= i < |args| :: Eval(e, args[i], d) == Some(Matches(e, parts[i], d))
    ensures Eval(e, Any(args), d) == Some(Matches(e, EVERYTHING.(ors := parts), d))
  {
    CompileQuery.OrsMatch(e, parts, d);
    assert Eval(e, Any(args), d) == Some(exists i | 0 <= i < |args| :: Eval(e, args[i], d).value);
    if i :| 0 <= i < |args| && Eval(e, args[i], d).value {
      assert Matches(e, parts[i], d);
    }
  }

  lemma BothDiffer(e: Engine, x: string, t: Term, d: Doc)
    ensures Eval(e, All([Relate(Differs, x, t), Relate(Differs, x, Literal(Null))]), d) ==
      if Resolve(e, t, d) == Unknown then None
      else Some(Here(d, x) != Resolve(e, t, d) && Here(d, x) != Scalar(Null))
  {
    var args := [Relate(Differs, x, t), Relate(Differs, x, Literal(Null))];
    assert Eval(e, args[1], d) == Some(Here(d, x) != Scalar(Null));
    if Resolve(e, t, d) == Unknown {
      assert Eval(e, args[0], d) == None;
    } else {
      assert Eval(e, args[0], d) == Some(Here(d, x) != Resolve(e, t, d));
    }
  }

  lemma NeLeaf(e: Engine, x: string, v: Value, d: Doc)
    ensures Agrees(e, Ne(x, v), d) <==> Comparable(e, Ne(x, v), d)
  {
    if v == Null {
      CompileQuery.OnlyMatches(e, x, NotEqual(Null), d);
    } else {
      BothDiffer(e, x, TermOf(v), d);
      CompileQuery.NeMatches(e, x, v, d);
    }
  }

  lemma AmongValue(e: Engine, x: string, vs: seq<Value>, d: Doc)
    ensures
      var r := Eval(e, Among(x, TermsOf(vs)), d);
      r == Some(Read(d, x) in vs) <==> MembersCoincide(e, x, vs, d)
    ensures (forall i | 0 <= i < |vs| :: !Dollared(vs[i])) ==>
      (MembersCoincide(e, x, vs, d) <==> x in d || Null !in vs)
  {
    var ts := TermsOf(vs);
    assert forall i | 0 <= i < |vs| :: ts[i] == TermOf(vs[i]);
    assert (exists i | 0 <= i < |ts| :: Resolve(e, ts[i], d) == Unknown)
      <==> exists i | 0 <= i < |vs| :: Resolve(e, TermOf(vs[i]), d) == Unknown;
    assert (exists i | 0 <= i < |ts| :: Element(Resolve(e, ts[i], d)) == Here(d, x))
      <==> exists i | 0 <= i < |vs| :: Element(Resolve(e, TermOf(vs[i]), d)) == Here(d, x);
    if forall i | 0 <= i < |vs| :: !Dollared(vs[i]) {
      LiteralMembers(e, x, vs, d);
    }
  }

  lemma LiteralMembers(e: Engine, x: string, vs: seq<Value>, d: Doc)
    requires forall i | 0 <= i < |vs| :: !Dollared(vs[i])
    ensures MembersCoincide(e, x, vs, d) <==> x in d || Null !in vs
  {
    assert forall i | 0 <= i < |vs| :: Element(Resolve(e, TermOf(vs[i]), d)) == Scalar(vs[i]);
    if x in d && d[x] in vs {
      var i :| 0 <= i < |vs| && vs[i] == d[x];
      assert Element(Resolve(e, TermOf(vs[i]), d)) == Here(d, x);
    }
  }

  lemma InLeaf(e: Engine, x: string, vs: seq<Value>, d: Doc)
    ensures Agrees(e, Filter.In(x, vs), d) <==> Comparable(e, Filter.In(x, vs), d)
  {
    if vs == [] {
      CompileQuery.NothingMatches(e, d);
    } else {
      CompileQuery.OnlyMatches(e, x, Queries.In(vs), d);
      AmongValue(e, x, vs, d);
    }
  }

  lemma NinLeaf(e: Engine, x: string, vs: seq<Value>, d: Doc)
    ensures Agrees(e, Filter.Nin(x, vs), d) <==> Comparable(e, Filter.Nin(x, vs), d)
  {
    if vs == [] {
      assert Matches(e, EVERYTHING, d);
    } else {
      CompileQuery.OnlyMatches(e, x, Queries.Nin(vs), d);
      NegateValue(e, Among(x, TermsOf(vs)), Read(d, x) in vs, d);
      AmongValue(e, x, vs, d);
    }
  }

  lemma NegateValue(e: Engine, arg: Expr, b: bool, d: Doc)
    ensures Eval(e, Negate(arg), d) == Some(!b) <==> Eval(e, arg, d) == Some(b)
  {
  }

  lemma EqLeaf(e: Engine, x: string, v: Value, d: Doc)
    ensures Agrees(e, Eq(x, v), d) <==> Comparable(e, Eq(x, v), d)
  {
    CompileQuery.IsMatches(e, x, v, d);
  }

  lemma LikeLeaf(e: Engine, x: string, p: string, s: bool, d: Doc)
    ensures Agrees(e, Filter.Like(x, p, s), d) <==> Comparable(e, Filter.Like(x, p, s), d)
  {
    CompileQuery.OnlyMatches(e, x, Queries.Regex(LikeRegex(p), if s then "" else "i"), d);
    assert LikeRegex(p)[0] == '^';
  }

  lemma RegexLeaf(e: Engine, x: string, p: string, flags: string, d: Doc)
    ensures Agrees(e, Filter.Regex(x, p, flags), d) <==> Comparable(e, Filter.Regex(x, p, flags), d)
  {
    CompileQuery.OnlyMatches(e, x, Queries.Regex(p, flags), d);
  }

  // Main result, leaf by leaf: the expression evaluates, and to what the query says, exactly
  // when the document's field is comparable.
  lemma LeavesAgreeExactly(e: Engine, f: Filter, d: Doc)
    requires IsLeaf(f)
    ensures Agrees(e, f, d) <==> Comparable(e, f, d)
  {
    match f
    case True =>
    case False => CompileQuery.NothingMatches(e, d);
    case Eq(x, v) => EqLeaf(e, x, v, d);
    case Ne(x, v) => NeLeaf(e, x, v, d);
    case Ordered(c, x, v) => OrderedLeaf(e, c, x, v, d);
    case In(x, vs) => InLeaf(e, x, vs, d);
    case Nin(x, vs) => NinLeaf(e, x, vs, d);
    case Exists(x, b) =>
      CompileQuery.OnlyMatches(e, x, NotEqual(Null), d);
      CompileQuery.IsMatches(e, x, Null, d);
    case Like(x, p, s) => LikeLeaf(e, x, p, s, d);
    case Regex(x, p, flags) => RegexLeaf(e, x, p, flags, d);
  }

  predicate AllComparable(e: Engine, f: Filter, d: Doc) {
    match f
    case And(fs) => forall i | 0 <= i < |fs| :: AllComparable(e, fs[i], d)
    case Or(fs) => forall i | 0 <= i < |fs| :: AllComparable(e, fs[i], d)
    case Not(g) => AllComparable(e, g, d)
    case _ => Comparable(e, f, d)
  }

  lemma {:induction false} CompileAllIsPointwise(fs: seq<Filter>)
    requires forall i | 0 <= i < |fs| :: Compile(fs[i]).Ok?
    ensures CompileAll(fs).Ok?
    ensures forall i | 0 <= i < |fs| :: CompileAll(fs).value[i] == Compile(fs[i]).value
    decreases |fs|
  {
    if fs != [] {
      CompileAllIsPointwise(fs[1..]);
      assert forall i | 0 <= i < |fs[1..]| :: fs[1..][i] == fs[i + 1];
    }
  }

  lemma AndAgrees(e: Engine, fs: seq<Filter>, d: Doc)
    requires forall i | 0 <= i < |fs| :: Agrees(e, fs[i], d)
    ensures Agrees(e, And(fs), d)
  {
    CompileAllIsPointwise(fs);
    CompileQuery.CompileAllIsPointwise(fs);
    var args, parts := CompileAll(fs).value, CompileQuery.CompileAll(fs).value;
    if |fs| == 1 {
      assert Agrees(e, fs[0], d);
    } else if fs != [] {
      AllEval(e, args, parts, d);
      assert CompileQuery.Compile(And(fs)).value == EVERYTHING.(ands := parts);
    }
  }

  lemma OrAgrees(e: Engine, fs: seq<Filter>, d: Doc)
    requires forall i | 0 <= i < |fs| :: Agrees(e, fs[i], d)
    ensures Agrees(e, Or(fs), d)
  {
    CompileAllIsPointwise(fs);
    CompileQuery.CompileAllIsPointwise(fs);
    var args, parts := CompileAll(fs).value, CompileQuery.CompileAll(fs).value;
    if fs == [] {
      CompileQuery.NothingMatches(e, d);
    } else if |fs| == 1 {
      assert Agrees(e, fs[0], d);
    } else {
      AnyEval(e, args, parts, d);
      assert CompileQuery.Compile(Or(fs)).value == EVERYTHING.(ors := parts);
    }
  }

  // Main result: the two compilers agree on every tree whose leaves are comparable.
  lemma {:induction false} CompilersAgree(e: Engine, f: Filter, d: Doc)
    requires !HasRaw(f) && AllComparable(e, f, d)
    ensures Agrees(e, f, d)
    decreases f
  {
    match f
    case And(fs) =>
      forall i | 0 <= i < |fs| ensures Agrees(e, fs[i], d) { CompilersAgree(e, fs[i], d); }
      AndAgrees(e, fs, d);
    case Or(fs) =>
      forall i | 0 <= i < |fs| ensures Agrees(e, fs[i], d) { CompilersAgree(e, fs[i], d); }
      OrAgrees(e, fs, d);
    case Not(g) =>
      CompilersAgree(e, g, d);
      CompileQuery.NorMatch(e, CompileQuery.Compile(g).value, d);
    case _ => LeavesAgreeExactly(e, f, d);
  }

  // ---- Dollared operands ---------------------------------------------------------------

  // An engine that knows no variables and takes a pattern for its own text.
  function Bare(): Engine {
    Engine((p, o, t) => p == t, (t, d) => false, (n, d) => Unknown)
  }

  lemma {:induction false} FreshNumber(vs: seq<Value>) returns (n: int)
    ensures forall k | k >= n :: Num(k) !in vs
  {
    if vs == [] {
      n := 0;
    } else {
      n := FreshNumber(vs[1..]);
      if vs[0].Num? && vs[0].n >= n {
        n := vs[0].n + 1;
      }
      assert forall v :: v in vs ==> v == vs[0] || v in vs[1..];
    }
  }

  // The document a path operand shows itself on: one whose field holds the operand's text,
  // or, where the operand names the field itself, one whose field holds something else.
  lemma EqualityTells(x: string, v: Value) returns (d: Doc)
    requires Dollared(v)
    ensures x in d && d[x] != Null && !Coincides(Bare(), Eq(x, v), d)
  {
    d := if TermOf(v).Path? && TermOf(v).field != x then map[x := v] else map[x := Num(0)];
  }

  lemma OrderTells(c: Order, x: string, v: Value) returns (d: Doc)
    requires Dollared(v)
    ensures Plain(Ordered(c, x, v), d) && !Coincides(Bare(), Ordered(c, x, v), d)
  {
    var same := TermOf(v) == Path(x);
    d := if same && (c == Gt || c == Lte) then map[x := Str("%")] else map[x := Str("")];
    assert "%"[0] == '%' && "%"[1..] == "" && v.s[0] == '$';
    assert StrLess(v.s, "%") && !StrLess("%", v.s) && !StrLess("%", "%");
  }

  lemma MembersTell(x: string, vs: seq<Value>) returns (d: Doc)
    requires exists i | 0 <= i < |vs| :: Dollared(vs[i])
    ensures x in d && !MembersCoincide(Bare(), x, vs, d)
  {
    var e := Bare();
    if self :| 0 <= self < |vs| && TermOf(vs[self]) == Path(x) {
      var n := FreshNumber(vs);
      d := map[x := Num(n)];
      assert Element(Resolve(e, TermOf(vs[self]), d)) == Here(d, x);
    } else {
      var i :| 0 <= i < |vs| && Dollared(vs[i]);
      d := map[x := vs[i]];
      forall j | 0 <= j < |vs| && Resolve(e, TermOf(vs[j]), d) != Unknown
        ensures Element(Resolve(e, TermOf(vs[j]), d)) != Here(d, x)
      {
      }
    }
  }

  lemma PatternTells(x: string, p: string, flags: string) returns (d: Doc)
    requires Dollared(Str(p))
    ensures Plain(Filter.Regex(x, p, flags), d) && !Coincides(Bare(), Filter.Regex(x, p, flags), d)
  {
    var t := TermOf(Str(p));
    d := if t.Path? && t.field != x then map[x := Str(""), t.field := Num(0)] else map[x := Str("")];
  }

  lemma DollarTells(f: Filter) returns (d: Doc)
    requires IsLeaf(f) && !DollarFree(f)
    ensures Plain(f, d) && !Coincides(Bare(), f, d)
  {
    match f
    case Eq(x, v) => d := EqualityTells(x, v);
    case Ne(x, v) => d := EqualityTells(x, v);
    case Ordered(c, x, v) => d := OrderTells(c, x, v);
    case In(x, vs) => d := MembersTell(x, vs);
    case Nin(x, vs) => d := MembersTell(x, vs);
    case Regex(x, p, flags) => d := PatternTells(x, p, flags);
  }

  // Main result: a leaf's two forms agree on every document where its field is comparable,
  // for every engine, exactly when none of its operands begins with a dollar sign.
  lemma AgreesExactlyWithoutDollars(f: Filter)
    requires IsLeaf(f)
    ensures (forall e: Engine, d: Doc | Plain(f, d) :: Agrees(e, f, d)) <==> DollarFree(f)
  {
    if DollarFree(f) {
      forall e: Engine, d: Doc | Plain(f, d) ensures Agrees(e, f, d) {
        LeavesAgreeExactly(e, f, d);
      }
    } else {
      var d := DollarTells(f);
      LeavesAgreeExactly(Bare(), f, d);
    }
  }

  const TWINS: Doc := map["name" := Str("a"), "other" := Str("a")]

  // eq('name', '$other') compares two fields, and a pattern "$" is not even an expression.
  lemma DollarOperandDiffers(e: Engine)
    ensures
      var d := TWINS;
      && Eval(e, Compile(Eq("name", Str("$other"))).value, d) == Some(true)
      && !Matches(e, CompileQuery.Compile(Eq("name", Str("$other"))).value, d)
      && Eval(e, Compile(Filter.Regex("name", "$", "")).value, d) == None
  {
    assert TermOf(Str("$other")) == Path("other") by {
      assert "$other"[1..] == "other";
    }
    assert TermOf(Str("$")) == Malformed by {
      assert "$"[1..] == "";
    }
    CompileQuery.IsMatches(e, "name", Str("$other"), TWINS);
    assert "a"[0] != "$other"[0];
  }

  // The expression form of "is null" is false on a missing field, the query form true.
  lemma MissingFieldDiffers(e: Engine, x: string, d: Doc)
    requires x !in d
    ensures Matches(e, CompileQuery.Compile(Exists(x, false)).value, d)
    ensures Eval(e, Compile(Exists(x, false)).value, d) == Some(false)
  {
    CompileQuery.IsMatches(e, x, Null, d);
  }
}

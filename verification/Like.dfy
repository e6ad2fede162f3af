// LIKE patterns and the anchored regular expressions they are translated to.

module Like {
  import opened Common

  // ---- LIKE (section 8.5 of ISO/IEC 9075:1992) -----------------------------------------

  // A pattern is a list of specifiers: a fixed character, any one character, any run.
  datatype Spec = Exactly(c: char) | AnyOne | AnyRun

  // Backslash escapes %, _ and itself; before anything else, or at the end, it is literal.
  predicate Escapes(p: string) {
    |p| >= 2 && p[0] == '\\' && (p[1] == '%' || p[1] == '_' || p[1] == '\\')
  }

  function Specs(p: string): seq<Spec> {
    if p == "" then []
    else if Escapes(p) then [Exactly(p[1])] + Specs(p[2..])
    else if p[0] == '%' then [AnyRun] + Specs(p[1..])
    else if p[0] == '_' then [AnyOne] + Specs(p[1..])
    else [Exactly(p[0])] + Specs(p[1..])
  }

  // How characters compare: exactly, or after folding case.
  datatype Case = Sensitive | Insensitive(fold: char -> char)

  predicate SameChar(k: Case, a: char, b: char) {
    a == b || (k.Insensitive? && k.fold(a) == k.fold(b))
  }

  predicate Fits(k: Case, spec: Spec, part: string) {
    match spec
    case Exactly(c) => |part| == 1 && SameChar(k, c, part[0])
    case AnyOne => |part| == 1
    case AnyRun => true
  }

  function Concat(parts: seq<string>): string {
    if parts == [] then "" else parts[0] + Concat(parts[1..])
  }

  ghost predicate Partition(k: Case, specs: seq<Spec>, text: string, parts: seq<string>) {
    |parts| == |specs| && Concat(parts) == text && forall i | 0 <= i < |specs| :: Fits(k, specs[i], parts[i])
  }

  // The text splits into substrings, one fitting each specifier in turn.
  ghost predicate LikeMatches(k: Case, pattern: string, text: string) {
    exists parts :: Partition(k, Specs(pattern), text, parts)
  }

  // ---- The regular expressions ---------------------------------------------------------

  predicate IsMeta(c: char) {
    c in {'.', '*', '+', '?', '^', '$', '{', '}', '(', ')', '|', '[', ']', '\\'}
  }

  datatype Atom = Dot | Char(c: char)

  datatype Item = Item(atom: Atom, star: bool)

  // The dialect ^item...$: literal characters, escaped metacharacters and dots, each
  // possibly starred.
  function ParseItems(p: string): Option<seq<Item>> {
    if p == "$" then Some([])
    else if p == "" then None
    else
      var escaped := p[0] == '\\' && |p| >= 2 && IsMeta(p[1]);
      if !escaped && p[0] != '.' && IsMeta(p[0]) then None
      else
        var atom := if escaped then Char(p[1]) else if p[0] == '.' then Dot else Char(p[0]);
        var rest := if escaped then p[2..] else p[1..];
        var star := rest != "" && rest[0] == '*';
        var tail := ParseItems(if star then rest[1..] else rest);
        if tail.None? then None else Some([Item(atom, star)] + tail.value)
  }

  function Parse(p: string): Option<seq<Item>> {
    if p != "" && p[0] == '^' then ParseItems(p[1..]) else None
  }

  predicate AtomMatches(k: Case, a: Atom, c: char) {
    match a
    case Dot => c != '\n'
    case Char(x) => SameChar(k, x, c)
  }

  // `$` also accepts before a final line break.
  predicate RegexMatches(k: Case, items: seq<Item>, text: string)
    decreases |items|
  {
    if items == [] then text == "" || text == "\n"
    else if items[0].star then
      exists n | 0 <= n <= |text| ::
        (forall i | 0 <= i < n :: AtomMatches(k, items[0].atom, text[i])) && RegexMatches(k, items[1..], text[n..])
    else text != "" && AtomMatches(k, items[0].atom, text[0]) && RegexMatches(k, items[1..], text[1..])
  }

  // An engine that reads this dialect as above; "i" folds case. Other patterns are its own affair.
  ghost predicate ReadsDialect(regex: (string, string, string) -> bool, fold: char -> char) {
    forall p, t | Parse(p).Some? ::
      && (regex(p, "", t) <==> RegexMatches(Sensitive, Parse(p).value, t))
      && (regex(p, "i", t) <==> RegexMatches(Insensitive(fold), Parse(p).value, t))
  }

  // ---- The translation -----------------------------------------------------------------

  function EscapeRegexChar(c: char): string {
    if IsMeta(c) then ['\\', c] else [c]
  }

  function Body(p: string): string {
    if p == "" then ""
    else if Escapes(p) then EscapeRegexChar(p[1]) + Body(p[2..])
    else if p[0] == '%' then ".*" + Body(p[1..])
    else if p[0] == '_' then "." + Body(p[1..])
    else EscapeRegexChar(p[0]) + Body(p[1..])
  }

  function LikeRegex(p: string): string {
    "^" + Body(p) + "$"
  }

  lemma Regroup(a: string, b: string, c: string)
    ensures (a + b) + c == a + (b + c)
  {
  }

  // The query compiler's loop.
  method LikeToRegex(pattern: string) returns (out: string)
    ensures out == LikeRegex(pattern)
  {
    out := "^";
    var i := 0;
    while i < |pattern|
      invariant i <= |pattern|
      invariant out + Body(pattern[i..]) == "^" + Body(pattern)
    {
      var ch := pattern[i];
      var rest := pattern[i..];
      if ch == '\\' && i + 1 < |pattern| {
        var next := pattern[i + 1];
        if next == '%' || next == '_' || next == '\\' {
          assert Escapes(rest) && rest[2..] == pattern[i + 2..];
          Regroup(out, EscapeRegexChar(next), Body(pattern[i + 2..]));
          out := out + EscapeRegexChar(next);
          i := i + 2;
          continue;
        }
      }
      assert !Escapes(rest) && rest[1..] == pattern[i + 1..];
      if ch == '%' {
        Regroup(out, ".*", Body(pattern[i + 1..]));
        out := out + ".*";
      } else if ch == '_' {
        Regroup(out, ".", Body(pattern[i + 1..]));
        out := out + ".";
      } else {
        Regroup(out, EscapeRegexChar(ch), Body(pattern[i + 1..]));
        out := out + EscapeRegexChar(ch);
      }
      i := i + 1;
    }
    assert pattern[i..] == "";
    out := out + "$";
  }

  // The expression compiler's own copy of the loop: it emits the same string.
  method LikeToRegexPattern(pattern: string) returns (out: string)
    ensures out == LikeRegex(pattern)
  {
    out := "^";
    var i := 0;
    while i < |pattern|
      invariant i <= |pattern|
      invariant out + Body(pattern[i..]) == "^" + Body(pattern)
    {
      var ch := pattern[i];
      var rest := pattern[i..];
      if ch == '\\' && i + 1 < |pattern| {
        var next := pattern[i + 1];
        if next == '%' || next == '_' || next == '\\' {
          assert Escapes(rest) && rest[2..] == pattern[i + 2..];
          Regroup(out, EscapeRegexChar(next), Body(pattern[i + 2..]));
          out := out + EscapeRegexChar(next);
          i := i + 2;
          continue;
        }
      }
      assert !Escapes(rest) && rest[1..] == pattern[i + 1..];
      if ch == '%' {
        Regroup(out, ".*", Body(pattern[i + 1..]));
        out := out + ".*";
      } else if ch == '_' {
        Regroup(out, ".", Body(pattern[i + 1..]));
        out := out + ".";
      } else {
        Regroup(out, EscapeRegexChar(ch), Body(pattern[i + 1..]));
        out := out + EscapeRegexChar(ch);
      }
      i := i + 1;
    }
    assert pattern[i..] == "";
    out := out + "$";
  }

  // ---- Correctness ---------------------------------------------------------------------

  function ItemOf(s: Spec): Item {
    match s
    case Exactly(c) => Item(Char(c), false)
    case AnyOne => Item(Dot, false)
    case AnyRun => Item(Dot, true)
  }

  function ItemsOf(specs: seq<Spec>): seq<Item> {
    if specs == [] then [] else [ItemOf(specs[0])] + ItemsOf(specs[1..])
  }

  lemma BodyNeverStartsStarred(p: string)
    ensures (Body(p) + "$")[0] != '*'
  {
  }

  lemma WildcardParses(star: bool, rest: string)
    requires ParseItems(Body(rest) + "$").Some?
    ensures ParseItems((if star then ".*" else ".") + (Body(rest) + "$"))
         == Some([Item(Dot, star)] + ParseItems(Body(rest) + "$").value)
  {
    BodyNeverStartsStarred(rest);
    var tail := Body(rest) + "$";
    if star {
      assert (".*" + tail)[1..] == "*" + tail && ("*" + tail)[1..] == tail;
    } else {
      assert ("." + tail)[1..] == tail;
    }
  }

  // The emitted string parses to one item per specifier.
  lemma {:induction false} EmittedParses(p: string)
    ensures ParseItems(Body(p) + "$") == Some(ItemsOf(Specs(p)))
  {
    if p == "" {
    } else if Escapes(p) {
      EmittedParses(p[2..]);
      LiteralParses(p[1], p[2..]);
      ItemsCons(Exactly(p[1]), p[2..]);
      assert Body(p) + "$" == EscapeRegexChar(p[1]) + Body(p[2..]) + "$";
    } else {
      EmittedParses(p[1..]);
      var tail := Body(p[1..]) + "$";
      if p[0] == '%' {
        WildcardParses(true, p[1..]);
        ItemsCons(AnyRun, p[1..]);
        assert Body(p) + "$" == ".*" + tail;
      } else if p[0] == '_' {
        WildcardParses(false, p[1..]);
        ItemsCons(AnyOne, p[1..]);
        assert Body(p) + "$" == "." + tail;
      } else {
        LiteralParses(p[0], p[1..]);
        ItemsCons(Exactly(p[0]), p[1..]);
        assert Body(p) + "$" == EscapeRegexChar(p[0]) + Body(p[1..]) + "$";
      }
    }
  }

  lemma ItemsCons(s: Spec, rest: string)
    ensures ItemsOf([s] + Specs(rest)) == [ItemOf(s)] + ItemsOf(Specs(rest))
  {
    assert ([s] + Specs(rest))[1..] == Specs(rest);
  }

  lemma LiteralParses(c: char, rest: string)
    requires ParseItems(Body(rest) + "$").Some?
    ensures ParseItems(EscapeRegexChar(c) + Body(rest) + "$")
         == Some([Item(Char(c), false)] + ParseItems(Body(rest) + "$").value)
  {
    BodyNeverStartsStarred(rest);
    var tail := Body(rest) + "$";
    var whole := EscapeRegexChar(c) + Body(rest) + "$";
    assert whole == EscapeRegexChar(c) + tail;
    if IsMeta(c) {
      assert whole[2..] == tail;
    } else {
      assert whole[1..] == tail;
    }
  }

  predicate OneLine(text: string) {
    '\n' !in text
  }

  lemma {:induction false} MatchGivesPartition(k: Case, specs: seq<Spec>, text: string) returns (parts: seq<string>)
    requires OneLine(text)
    requires RegexMatches(k, ItemsOf(specs), text)
    ensures Partition(k, specs, text, parts)
    decreases |specs|
  {
    if specs == [] {
      parts := [];
    } else {
      var items := ItemsOf(specs);
      assert items[1..] == ItemsOf(specs[1..]);
      var n := 1;
      if items[0].star {
        n :| 0 <= n <= |text| && RegexMatches(k, items[1..], text[n..]);
      }
      var tail := MatchGivesPartition(k, specs[1..], text[n..]);
      parts := [text[..n]] + tail;
      assert parts[1..] == tail && text[..n] + text[n..] == text;
      forall i | 0 <= i < |specs|
        ensures Fits(k, specs[i], parts[i])
      {
        if i > 0 {
          assert parts[i] == tail[i - 1] && specs[i] == specs[1..][i - 1];
        }
      }
    }
  }

  lemma {:induction false} PartitionGivesMatch(k: Case, specs: seq<Spec>, text: string, parts: seq<string>)
    requires OneLine(text)
    requires Partition(k, specs, text, parts)
    ensures RegexMatches(k, ItemsOf(specs), text)
    decreases |specs|
  {
    if specs != [] {
      var items := ItemsOf(specs);
      assert items[1..] == ItemsOf(specs[1..]);
      var n := |parts[0]|;
      assert text == parts[0] + Concat(parts[1..]);
      assert text[..n] == parts[0] && text[n..] == Concat(parts[1..]);
      forall i | 0 <= i < |specs[1..]|
        ensures Fits(k, specs[1..][i], parts[1..][i])
      {
        assert Fits(k, specs[i + 1], parts[i + 1]);
      }
      PartitionGivesMatch(k, specs[1..], text[n..], parts[1..]);
      assert Fits(k, specs[0], parts[0]);
      forall i | 0 <= i < |text|
        ensures text[i] != '\n'
      {
        assert text[i] in text;
      }
    }
  }

  // Main result: parsed and matched as a regular expression, the emitted string accepts a
  // one-line text exactly when the LIKE pattern does.
  lemma LikeIsPreserved(k: Case, pattern: string, text: string)
    requires OneLine(text)
    ensures Parse(LikeRegex(pattern)).Some?
    ensures RegexMatches(k, Parse(LikeRegex(pattern)).value, text) <==> LikeMatches(k, pattern, text)
  {
    assert LikeRegex(pattern)[1..] == Body(pattern) + "$";
    EmittedParses(pattern);
    if RegexMatches(k, ItemsOf(Specs(pattern)), text) {
      var parts := MatchGivesPartition(k, Specs(pattern), text);
    }
    if LikeMatches(k, pattern, text) {
      var parts :| Partition(k, Specs(pattern), text, parts);
      PartitionGivesMatch(k, Specs(pattern), text, parts);
    }
  }

  // Line breaks part them, both ways: `.` refuses one, `$` tolerates a final one.
  lemma LineBreaksDiffer(k: Case)
    ensures Parse(LikeRegex("_")).Some? && Parse(LikeRegex("")).Some?
    ensures LikeMatches(k, "_", "\n") && !RegexMatches(k, Parse(LikeRegex("_")).value, "\n")
    ensures !LikeMatches(k, "", "\n") && RegexMatches(k, Parse(LikeRegex("")).value, "\n")
  {
    LikeIsPreserved(k, "_", "");
    LikeIsPreserved(k, "", "");
    EmittedParses("_");
    assert LikeRegex("_")[1..] == Body("_") + "$" && LikeRegex("")[1..] == "$";
    assert Specs("_") == [AnyOne] by { assert "_"[1..] == ""; }
    assert Concat(["\n"]) == "\n" + Concat([]);
    assert Partition(k, [AnyOne], "\n", ["\n"]);
  }
}

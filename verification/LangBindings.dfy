/**
 * What a piece of syntax means to the binding analysis, defined by plain recursion: its free names,
 * and how much fragment source, how many fragment tokens and how much nesting reading it takes.
 */
module LangBindings {
  import opened Common
  import opened Encoding
  import opened LangSyntax

  /**
   * The lexer and the parser, as functions of the text: its token count when it lexes, its forms
   * when it parses, and the nesting the parser needs for it.
   */
  datatype Grammar = Grammar(
    tokens: string -> Option<nat>,
    cell: string -> Option<seq<Form>>,
    nesting: string -> nat,
    alphanumeric: char -> bool)

  function Width(c: char): nat {
    if c < '\U{80}' then 1
    else if c < '\U{800}' then 2
    else if c < '\U{10000}' then 3
    else 4
  }

  /** Bytes of the UTF-8 encoding. */
  function ByteLength(s: string): nat {
    if s == [] then 0 else Width(s[0]) + ByteLength(s[1..])
  }

  /** A text is as long as its encoding. */
  lemma {:induction false} ByteLengthIs(s: string)
    ensures ByteLength(s) == |TextBytes(s)|
  {
    if s != [] {
      ByteLengthIs(s[1..]);
    }
  }

  // ---- Interpolations in a string ----------------------------------------------------------

  datatype Part = Mention(name: string) | Fragment(source: string)

  /** Where the brace opened just before `i` closes, or the end of the text when it does not. */
  function Close(s: string, i: nat, depth: nat): (end: nat)
    requires i <= |s| && depth > 0
    ensures i <= end <= |s|
    decreases |s| - i
  {
    if i == |s| then i
    else if s[i] == '}' && depth == 1 then i
    else Close(s, i + 1, if s[i] == '{' then depth + 1 else if s[i] == '}' then depth - 1 else depth)
  }

  predicate Word(g: Grammar, c: char) {
    c == '_' || g.alphanumeric(c)
  }

  function WordEnd(g: Grammar, s: string, i: nat): (end: nat)
    requires i <= |s|
    ensures i <= end <= |s|
    ensures forall j :: i <= j < end ==> Word(g, s[j])
    ensures end < |s| ==> !Word(g, s[end])
    decreases |s| - i
  {
    if i < |s| && Word(g, s[i]) then WordEnd(g, s, i + 1) else i
  }

  /** What a string literal interpolates from position `i` on; nothing after an unclosed brace. */
  function Parts(g: Grammar, s: string, i: nat): seq<Part>
    decreases |s| - i
  {
    if i >= |s| then []
    else if s[i] == '\\' then Parts(g, s, i + 2)
    else if s[i] != '#' then Parts(g, s, i + 1)
    else if i + 1 < |s| && s[i + 1] == '{' then
      var end := Close(s, i + 2, 1);
      if end == |s| then [] else [Fragment(s[i + 2..end])] + Parts(g, s, end + 1)
    else
      var end := WordEnd(g, s, i + 1);
      if end == i + 1 then Parts(g, s, i + 1) else [Mention(s[i + 1..end])] + Parts(g, s, end)
  }

  /**
   * Backslashes in front of a character: in pairs they stand for themselves, and one more takes the character with
   * it, so that a mark after an odd number of them interpolates nothing.
   */
  lemma {:induction false} BackslashesPair(g: Grammar, s: string, i: nat, n: nat)
    requires i + n <= |s| && forall j :: i <= j < i + n ==> s[j] == '\\'
    ensures Parts(g, s, i) == Parts(g, s, if n % 2 == 0 then i + n else i + n + 1)
    decreases n
  {
    if n > 1 {
      BackslashesPair(g, s, i + 2, n - 2);
    }
  }

  /** Text without a mark interpolates nothing. */
  lemma {:induction false} NoMarkNoParts(g: Grammar, s: string, i: nat)
    requires forall j :: i <= j < |s| ==> s[j] != '#'
    ensures Parts(g, s, i) == []
    decreases |s| - i
  {
    if i < |s| {
      NoMarkNoParts(g, s, if s[i] == '\\' then i + 2 else i + 1);
    }
  }

  /** The nesting of braces before position `j`, counting the one opened just before `i`. */
  function Level(s: string, i: nat, j: nat): int
    requires i <= j <= |s|
    decreases j - i
  {
    if i == j then 1
    else Level(s, i, j - 1) + (if s[j - 1] == '{' then 1 else if s[j - 1] == '}' then -1 else 0)
  }

  // ---- Free names and what reading them takes ---------------------------------------------

  /**
   * `free`: names read from outside. `bytes`, `tokens`: total size of the interpolated fragments,
   * fragments within fragments included. `widest`: the largest token count of one fragment.
   * `height`: the nesting of expressions. `whole`: every fragment lexes and parses.
   */
  datatype Demand = Demand(
    free: set<string>, bytes: nat, tokens: nat, widest: nat, height: nat, whole: bool)

  const NOTHING := Demand({}, 0, 0, 0, 0, true)

  function Plus(a: Demand, b: Demand): Demand {
    Demand(a.free + b.free, a.bytes + b.bytes, a.tokens + b.tokens, Max(a.widest, b.widest),
           Max(a.height, b.height), a.whole && b.whole)
  }

  function Under(names: set<string>, d: Demand): Demand {
    d.(free := d.free - names)
  }

  function Nested(d: Demand): Demand {
    d.(height := d.height + 1)
  }

  /**
   * The demand of an expression whose strings are followed through `levels` levels of fragments
   * within fragments. Deeper fragments leave the demand not `whole`.
   */
  function OfExpr(g: Grammar, levels: nat, e: Expr): Demand
    decreases levels, 1, e, 1
  {
    Nested(OfInside(g, levels, e))
  }

  function OfInside(g: Grammar, levels: nat, e: Expr): Demand
    decreases levels, 1, e, 0
  {
    match e
    case Text(text) => OfParts(g, levels, Parts(g, text, 0))
    case Name(name) => NOTHING.(free := {name})
    case List(values) => OfExprs(g, levels, values)
    case Record(fields) => OfFields(g, levels, fields)
    case Lambda(params, body) => Under(NamesOfAll(params), OfExpr(g, levels, body))
    case Apply(callee, argument) => Plus(OfExpr(g, levels, callee), OfExpr(g, levels, argument))
    case Field(target, _) => OfExpr(g, levels, target)
    case Unary(value) => OfExpr(g, levels, value)
    case Binary(left, right) => Plus(OfExpr(g, levels, left), OfExpr(g, levels, right))
    case Pipe(piped, into) => Plus(OfExpr(g, levels, piped), OfExpr(g, levels, into))
    case If(condition, thenValue, elseValue) =>
      Plus(OfExpr(g, levels, condition),
           Plus(OfExpr(g, levels, thenValue), OfExpr(g, levels, elseValue)))
    case Match(subject, arms) => Plus(OfExpr(g, levels, subject), OfArms(g, levels, arms))
    case Handle(handled, handlers) => Plus(OfExpr(g, levels, handled), OfArms(g, levels, handlers))
    case Block(forms) => OfForms(g, levels, forms)
    case _ => NOTHING
  }

  function OfExprs(g: Grammar, levels: nat, es: seq<Expr>): Demand
    decreases levels, 1, es
  {
    if es == [] then NOTHING else Plus(OfExpr(g, levels, es[0]), OfExprs(g, levels, es[1..]))
  }

  function OfFields(g: Grammar, levels: nat, fs: seq<ExprField>): Demand
    decreases levels, 1, fs
  {
    if fs == [] then NOTHING else Plus(OfExpr(g, levels, fs[0].value), OfFields(g, levels, fs[1..]))
  }

  function OfArms(g: Grammar, levels: nat, arms: seq<Arm>): Demand
    decreases levels, 1, arms
  {
    if arms == [] then NOTHING
    else Plus(OfArm(g, levels, arms[0]), OfArms(g, levels, arms[1..]))
  }

  function OfArm(g: Grammar, levels: nat, arm: Arm): Demand
    decreases levels, 1, arm
  {
    Under(Names(arm.pattern), OfExpr(g, levels, arm.value))
  }

  function OfForm(g: Grammar, levels: nat, f: Form): Demand
    decreases levels, 1, f
  {
    match f
    case TypeForm => NOTHING
    case Let(_, value) => OfExpr(g, levels, value)
    case Fun(name, params, body) => Under({name} + NamesOfAll(params), OfExpr(g, levels, body))
    case Eval(expr) => OfExpr(g, levels, expr)
  }

  /** A form's names scope over the forms after it. */
  function OfForms(g: Grammar, levels: nat, fs: seq<Form>): Demand
    decreases levels, 1, fs
  {
    if fs == [] then NOTHING
    else Plus(OfForm(g, levels, fs[0]), Under(Binds(fs[0]), OfForms(g, levels, fs[1..])))
  }

  function OfParts(g: Grammar, levels: nat, parts: seq<Part>): Demand
    decreases levels, 0, 1 + |parts|
  {
    if parts == [] then NOTHING
    else Plus(OfPart(g, levels, parts[0]), OfParts(g, levels, parts[1..]))
  }

  function OfPart(g: Grammar, levels: nat, part: Part): Demand
    decreases levels, 0, 0, 1
  {
    match part
    case Mention(name) => NOTHING.(free := {name})
    case Fragment(source) => OfFragment(g, levels, source)
  }

  function OfFragment(g: Grammar, levels: nat, source: string): Demand
    decreases levels, 0, 0, 0
  {
    if levels == 0 || g.tokens(source) == None || g.cell(source) == None then
      NOTHING.(whole := false)
    else
      var count := g.tokens(source).value;
      Plus(Demand({}, ByteLength(source), count, count, Max(1, g.nesting(source)), true),
           OfForms(g, levels - 1, g.cell(source).value))
  }

  // ---- Paying for a demand -----------------------------------------------------------------

  /** The names read so far and the fragment bytes and tokens still allowed. */
  datatype Ledger = Ledger(read: set<string>, bytes: nat, tokens: nat)

  /** The limits a fragment and the nesting are held to from here on. */
  datatype Room = Room(width: nat, depth: nat)

  predicate Fits(d: Demand, ledger: Ledger, room: Room) {
    && d.whole
    && d.bytes <= ledger.bytes
    && d.tokens <= ledger.tokens
    && d.widest <= room.width
    && d.height <= room.depth
  }

  function Pay(ledger: Ledger, d: Demand): Ledger
    requires d.bytes <= ledger.bytes && d.tokens <= ledger.tokens
  {
    Ledger(ledger.read + d.free, ledger.bytes - d.bytes, ledger.tokens - d.tokens)
  }

  /** Having reached `now`, what is left of paying for `total` from `start` is `rest`. */
  ghost predicate Left(start: Ledger, total: Demand, now: Ledger, rest: Demand, room: Room) {
    && (Fits(total, start, room) <==> Fits(rest, now, room))
    && (Fits(rest, now, room) ==> Pay(start, total) == Pay(now, rest))
  }

  lemma {:induction false} PaidFirst(
    start: Ledger, total: Demand, now: Ledger, first: Demand, rest: Demand, room: Room)
    requires Left(start, total, now, Plus(first, rest), room)
    ensures !Fits(first, now, room) ==> !Fits(total, start, room)
    ensures Fits(first, now, room) ==> Left(start, total, Pay(now, first), rest, room)
  {
    if Fits(first, now, room) && Fits(rest, Pay(now, first), room) {
      assert Pay(now, Plus(first, rest)) == Pay(Pay(now, first), rest);
    }
  }

  lemma {:induction false} UnderPlus(names: set<string>, a: Demand, b: Demand)
    ensures Under(names, Plus(a, b)) == Plus(Under(names, a), Under(names, b))
  {
  }

  lemma {:induction false} PlusLaws(a: Demand, b: Demand, c: Demand)
    ensures Plus(NOTHING, a) == a
    ensures Plus(a, Plus(b, c)) == Plus(Plus(a, b), c)
  {
  }

  lemma {:induction false} PartsConcat(g: Grammar, levels: nat, head: seq<Part>, tail: seq<Part>)
    ensures OfParts(g, levels, head + tail) == Plus(OfParts(g, levels, head), OfParts(g, levels, tail))
  {
    var rest := OfParts(g, levels, tail);
    if head == [] {
      assert head + tail == tail;
      PlusLaws(rest, NOTHING, NOTHING);
    } else {
      PartsConcat(g, levels, head[1..], tail);
      assert (head + tail)[1..] == head[1..] + tail;
      PlusLaws(OfPart(g, levels, head[0]), OfParts(g, levels, head[1..]), rest);
    }
  }

  lemma {:induction false} UnderUnder(outer: set<string>, inner: set<string>, d: Demand)
    ensures Under(outer, Under(inner, d)) == Under(outer + inner, d)
  {
  }

  // ---- The matching brace ------------------------------------------------------------------

  lemma {:induction false} CloseFrom(s: string, i: nat, j: nat)
    requires i <= j <= |s|
    requires forall m :: i <= m <= j ==> Level(s, i, m) >= 1
    ensures var end := Close(s, j, Level(s, i, j));
      && (forall m :: i <= m <= end ==> Level(s, i, m) >= 1)
      && (end < |s| ==> s[end] == '}' && Level(s, i, end) == 1)
    decreases |s| - j
  {
    if j < |s| && !(s[j] == '}' && Level(s, i, j) == 1) {
      assert Level(s, i, j + 1) >= 1;
      CloseFrom(s, i, j + 1);
    }
  }

  /** Close finds the first position where the nesting would fall to zero, or the end if it never does. */
  lemma {:induction false} CloseMatches(s: string, i: nat)
    requires i <= |s|
    ensures var end := Close(s, i, 1);
      && (forall j :: i <= j <= end ==> Level(s, i, j) >= 1)
      && (end < |s| ==> s[end] == '}' && Level(s, i, end) == 1)
  {
    CloseFrom(s, i, i);
  }

  // ---- The demand does not depend on how many levels are allowed for ---------------------------

  lemma {:induction false} ExprLevels(g: Grammar, k: nat, j: nat, e: Expr)
    requires OfExpr(g, k, e).whole
    requires k <= j || OfExpr(g, k, e).height <= j
    ensures OfExpr(g, j, e) == OfExpr(g, k, e)
    decreases k, 1, e
  {
    match e
    case Text(text) => PartsLevels(g, k, j, Parts(g, text, 0));
    case List(values) => ExprsLevels(g, k, j, values);
    case Record(fields) => FieldsLevels(g, k, j, fields);
    case Lambda(_, body) => ExprLevels(g, k, j, body);
    case Apply(callee, argument) => ExprLevels(g, k, j, callee); ExprLevels(g, k, j, argument);
    case Field(target, _) => ExprLevels(g, k, j, target);
    case Unary(value) => ExprLevels(g, k, j, value);
    case Binary(left, right) => ExprLevels(g, k, j, left); ExprLevels(g, k, j, right);
    case Pipe(piped, into) => ExprLevels(g, k, j, piped); ExprLevels(g, k, j, into);
    case If(condition, thenValue, elseValue) =>
      ExprLevels(g, k, j, condition);
      ExprLevels(g, k, j, thenValue);
      ExprLevels(g, k, j, elseValue);
    case Match(subject, arms) => ExprLevels(g, k, j, subject); ArmsLevels(g, k, j, arms);
    case Handle(handled, handlers) => ExprLevels(g, k, j, handled); ArmsLevels(g, k, j, handlers);
    case Block(forms) => FormsLevels(g, k, j, forms);
    case _ =>
  }

  lemma {:induction false} ExprsLevels(g: Grammar, k: nat, j: nat, es: seq<Expr>)
    requires OfExprs(g, k, es).whole
    requires k <= j || OfExprs(g, k, es).height <= j
    ensures OfExprs(g, j, es) == OfExprs(g, k, es)
    decreases k, 1, es
  {
    if es != [] {
      ExprLevels(g, k, j, es[0]);
      ExprsLevels(g, k, j, es[1..]);
    }
  }

  lemma {:induction false} FieldsLevels(g: Grammar, k: nat, j: nat, fs: seq<ExprField>)
    requires OfFields(g, k, fs).whole
    requires k <= j || OfFields(g, k, fs).height <= j
    ensures OfFields(g, j, fs) == OfFields(g, k, fs)
    decreases k, 1, fs
  {
    if fs != [] {
      ExprLevels(g, k, j, fs[0].value);
      FieldsLevels(g, k, j, fs[1..]);
    }
  }

  lemma {:induction false} ArmsLevels(g: Grammar, k: nat, j: nat, arms: seq<Arm>)
    requires OfArms(g, k, arms).whole
    requires k <= j || OfArms(g, k, arms).height <= j
    ensures OfArms(g, j, arms) == OfArms(g, k, arms)
    decreases k, 1, arms
  {
    if arms != [] {
      ArmLevels(g, k, j, arms[0]);
      ArmsLevels(g, k, j, arms[1..]);
    }
  }

  lemma {:induction false} ArmLevels(g: Grammar, k: nat, j: nat, arm: Arm)
    requires OfArm(g, k, arm).whole
    requires k <= j || OfArm(g, k, arm).height <= j
    ensures OfArm(g, j, arm) == OfArm(g, k, arm)
    decreases k, 1, arm
  {
    ExprLevels(g, k, j, arm.value);
  }

  lemma {:induction false} FormsLevels(g: Grammar, k: nat, j: nat, fs: seq<Form>)
    requires OfForms(g, k, fs).whole
    requires k <= j || OfForms(g, k, fs).height <= j
    ensures OfForms(g, j, fs) == OfForms(g, k, fs)
    decreases k, 1, fs
  {
    if fs != [] {
      FormLevels(g, k, j, fs[0]);
      FormsLevels(g, k, j, fs[1..]);
    }
  }

  lemma {:induction false} FormLevels(g: Grammar, k: nat, j: nat, f: Form)
    requires OfForm(g, k, f).whole
    requires k <= j || OfForm(g, k, f).height <= j
    ensures OfForm(g, j, f) == OfForm(g, k, f)
    decreases k, 1, f
  {
    match f
    case TypeForm =>
    case Let(_, value) => ExprLevels(g, k, j, value);
    case Fun(_, _, body) => ExprLevels(g, k, j, body);
    case Eval(expr) => ExprLevels(g, k, j, expr);
  }

  lemma {:induction false} PartsLevels(g: Grammar, k: nat, j: nat, parts: seq<Part>)
    requires OfParts(g, k, parts).whole
    requires k <= j || OfParts(g, k, parts).height < j
    ensures OfParts(g, j, parts) == OfParts(g, k, parts)
    decreases k, 0, 1 + |parts|
  {
    if parts != [] {
      PartsLevels(g, k, j, parts[1..]);
      if parts[0].Fragment? {
        FragmentLevels(g, k, j, parts[0].source);
      }
    }
  }

  lemma {:induction false} FragmentLevels(g: Grammar, k: nat, j: nat, source: string)
    requires OfFragment(g, k, source).whole
    requires k <= j || OfFragment(g, k, source).height < j
    ensures OfFragment(g, j, source) == OfFragment(g, k, source)
    decreases k, 0, 0
  {
    FormsLevels(g, k - 1, j - 1, g.cell(source).value);
  }

  /**
   * Any number of levels that reads a cell whole decides the same way as the nesting limit itself
   * whether the cell fits, and finds the same free names.
   */
  lemma {:induction false} EnoughLevels(g: Grammar, k: nat, cell: seq<Form>, ledger: Ledger, room: Room)
    requires OfForms(g, k, cell).whole
    ensures Fits(OfForms(g, room.depth, cell), ledger, room) <==> Fits(OfForms(g, k, cell), ledger, room)
    ensures Fits(OfForms(g, k, cell), ledger, room) ==> OfForms(g, room.depth, cell) == OfForms(g, k, cell)
  {
    var d := OfForms(g, room.depth, cell);
    if k <= room.depth || OfForms(g, k, cell).height <= room.depth {
      FormsLevels(g, k, room.depth, cell);
    } else if d.whole {
      FormsLevels(g, room.depth, k, cell);
    }
  }
}

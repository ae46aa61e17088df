/** Syntax trees of the scripting language, and the names that patterns and forms bind. */
module LangSyntax {
  import opened Common

  datatype Pattern =
    | Wildcard
    | Bind(name: string)
    | Constant
    | Variant(tag: string, payload: Option<Pattern>)
    | Elements(values: seq<Pattern>)
    | Cons(head: Pattern, tail: Pattern)
    | Fields(fields: seq<PatternField>, rest: bool)

  datatype PatternField = PatternField(field: string, pattern: Pattern)

  datatype Expr =
    | Text(text: string)
    | Literal
    | Uri(uri: string)
    | Name(name: string)
    | Constructor(variant: string)
    | Capability(path: string)
    | List(values: seq<Expr>)
    | Record(fields: seq<ExprField>)
    | Lambda(params: seq<Pattern>, body: Expr)
    | Apply(callee: Expr, argument: Expr)
    | Field(target: Expr, field: string)
    | Unary(value: Expr)
    | Binary(left: Expr, right: Expr)
    | Pipe(piped: Expr, into: Expr)
    | If(condition: Expr, thenValue: Expr, elseValue: Expr)
    | Match(subject: Expr, arms: seq<Arm>)
    | Handle(handled: Expr, handlers: seq<Arm>)
    | Block(forms: seq<Form>)

  datatype ExprField = ExprField(key: string, value: Expr)

  datatype Arm = Arm(pattern: Pattern, value: Expr)

  datatype Form =
    | TypeForm
    | Let(pattern: Pattern, value: Expr)
    | Fun(name: string, params: seq<Pattern>, body: Expr)
    | Eval(expr: Expr)

  /** The names a pattern binds. */
  function Names(p: Pattern): set<string> {
    match p
    case Bind(name) => {name}
    case Variant(_, Some(payload)) => Names(payload)
    case Elements(values) => NamesOfAll(values)
    case Cons(head, tail) => Names(head) + Names(tail)
    case Fields(fields, _) => NamesOfFields(fields)
    case _ => {}
  }

  function NamesOfAll(ps: seq<Pattern>): set<string> {
    if ps == [] then {} else Names(ps[0]) + NamesOfAll(ps[1..])
  }

  function NamesOfFields(fs: seq<PatternField>): set<string> {
    if fs == [] then {} else Names(fs[0].pattern) + NamesOfFields(fs[1..])
  }

  /** The names a form adds to the scope it stands in. */
  function Binds(f: Form): set<string> {
    match f
    case Let(pattern, _) => Names(pattern)
    case Fun(name, _, _) => {name}
    case _ => {}
  }

  function BindsOfAll(fs: seq<Form>): set<string> {
    if fs == [] then {} else Binds(fs[0]) + BindsOfAll(fs[1..])
  }

  function Patterns(fs: seq<PatternField>): (ps: seq<Pattern>)
    ensures |ps| == |fs| && forall i :: 0 <= i < |fs| ==> ps[i] == fs[i].pattern
  {
    seq(|fs|, i requires 0 <= i < |fs| => fs[i].pattern)
  }

  /** The number of pattern nodes: what the binding worklists consume. */
  function Size(p: Pattern): nat {
    1 + match p
        case Variant(_, Some(payload)) => Size(payload)
        case Elements(values) => SizeOfAll(values)
        case Cons(head, tail) => Size(head) + Size(tail)
        case Fields(fields, _) => SizeOfFields(fields)
        case _ => 0
  }

  function SizeOfAll(ps: seq<Pattern>): nat {
    if ps == [] then 0 else Size(ps[0]) + SizeOfAll(ps[1..])
  }

  function SizeOfFields(fs: seq<PatternField>): nat {
    if fs == [] then 0 else Size(fs[0].pattern) + SizeOfFields(fs[1..])
  }

  /** The patterns directly inside a pattern, in the order they are written. */
  function Inner(p: Pattern): seq<Pattern> {
    match p
    case Variant(_, Some(payload)) => [payload]
    case Elements(values) => values
    case Cons(head, tail) => [head, tail]
    case Fields(fields, _) => Patterns(fields)
    case _ => []
  }

  lemma {:induction false} FieldsArePatterns(fs: seq<PatternField>)
    ensures NamesOfAll(Patterns(fs)) == NamesOfFields(fs)
    ensures SizeOfAll(Patterns(fs)) == SizeOfFields(fs)
  {
    if fs != [] {
      FieldsArePatterns(fs[1..]);
      assert Patterns(fs)[1..] == Patterns(fs[1..]);
    }
  }

  lemma {:induction false} AllOfConcat(a: seq<Pattern>, b: seq<Pattern>)
    ensures NamesOfAll(a + b) == NamesOfAll(a) + NamesOfAll(b)
    ensures SizeOfAll(a + b) == SizeOfAll(a) + SizeOfAll(b)
  {
    if a == [] {
      assert a + b == b;
    } else {
      AllOfConcat(a[1..], b);
      assert (a + b)[1..] == a[1..] + b;
    }
  }

  /** Replacing a pattern on a worklist by what is inside it loses only the name it binds itself. */
  lemma {:induction false} Opened(p: Pattern)
    ensures Names(p) == NamesOfAll(Inner(p)) + (if p.Bind? then {p.name} else {})
    ensures Size(p) == 1 + SizeOfAll(Inner(p))
  {
    match p
    case Cons(head, tail) =>
      assert [head, tail][1..] == [tail] && [tail][1..] == [];
      assert NamesOfAll([tail]) == Names(tail) && SizeOfAll([tail]) == Size(tail);
    case Fields(fields, _) =>
      FieldsArePatterns(fields);
    case Variant(_, Some(payload)) =>
      assert [payload][1..] == [];
    case _ =>
  }
}

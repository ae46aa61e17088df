/** The binding analysis of a cell: one traversal that updates usage, scopes, depth and budgets in place. */
module LangAnalyzer {
  import opened Common
  import opened Encoding
  import opened LangSyntax
  import opened LangBindings
  import opened LangScopes

  /** Diagnostic codes: TM2019 and TM2021 for the two budgets; lexer and parser have their own. */
  datatype Fault = SourceBudget | NestingBudget | Lexical | Grammatical

  datatype Outcome = Done | Failed(fault: Fault)

  datatype Usage = Usage(read: set<string>, written: set<string>)

  /** The lexer under a token limit. */
  function LexBounded(g: Grammar, source: string, limit: nat): Result<nat, Fault> {
    match g.tokens(source)
    case Some(count) => if count <= limit then Ok(count) else Err(Lexical)
    case None => Err(Lexical)
  }

  /** The parser under a source, token and nesting limit. */
  function ParseBounded(g: Grammar, source: string, maxBytes: nat, maxTokens: nat, maxDepth: nat)
    : Result<seq<Form>, Fault>
  {
    if ByteLength(source) > maxBytes then Err(SourceBudget)
    else if LexBounded(g, source, maxTokens).Err? then Err(Lexical)
    else if g.cell(source) == None then Err(Grammatical)
    else if g.nesting(source) > maxDepth then Err(NestingBudget)
    else Ok(g.cell(source).value)
  }

  /** The limits are on bytes, tokens and nesting, and nothing else is refused that parses. */
  lemma {:induction false} ParsesIff(
    g: Grammar, source: string, maxBytes: nat, maxTokens: nat, maxDepth: nat, forms: seq<Form>)
    ensures ParseBounded(g, source, maxBytes, maxTokens, maxDepth) == Ok(forms) <==>
            && |TextBytes(source)| <= maxBytes && g.nesting(source) <= maxDepth && g.cell(source) == Some(forms)
            && g.tokens(source).Some? && g.tokens(source).value <= maxTokens
  {
    ByteLengthIs(source);
  }

  function OwnNames(own: Option<string>): set<string> {
    if own.Some? then {own.value} else {}
  }

  lemma {:induction false} NextParts(
    start: Ledger, total: Demand, now: Ledger, names: set<string>, g: Grammar, levels: nat, head: seq<Part>,
    tail: seq<Part>, room: Room)
    requires Left(start, total, now, Under(names, OfParts(g, levels, head + tail)), room)
    ensures
      var first, rest := Under(names, OfParts(g, levels, head)), Under(names, OfParts(g, levels, tail));
      && (!Fits(first, now, room) ==> !Fits(total, start, room))
      && (Fits(first, now, room) ==> Left(start, total, Pay(now, first), rest, room))
  {
    var first, rest := OfParts(g, levels, head), OfParts(g, levels, tail);
    PartsConcat(g, levels, head, tail);
    UnderPlus(names, first, rest);
    PaidFirst(start, total, now, Under(names, first), Under(names, rest), room);
  }

  class Analyzer {
    const g: Grammar
    var read: set<string>
    var written: set<string>
    const bound: ScopedBoundSet
    var remainingBytes: nat
    var remainingTokens: nat
    const maxFragmentTokens: nat
    var depth: nat
    const maxDepth: nat

    constructor (g: Grammar, maxBytes: nat, maxTokens: nat, maxDepth: nat, checked: bool)
      ensures this.g == g && this.maxDepth == maxDepth && maxFragmentTokens == maxTokens
      ensures fresh(bound) && bound.names == {} && bound.undo == [] && bound.scopes == []
      ensures read == {} && written == {} && depth == 0
      ensures remainingBytes == maxBytes && remainingTokens == Min(2 * maxBytes, U64_MAX)
    {
      this.g := g;
      read, written := {}, {};
      bound := new ScopedBoundSet(checked);
      remainingBytes, remainingTokens := maxBytes, Min(2 * maxBytes, U64_MAX);
      maxFragmentTokens := maxTokens;
      depth := 0;
      this.maxDepth := maxDepth;
    }

    ghost function Now(): Ledger
      reads this
    {
      Ledger(read, remainingBytes, remainingTokens)
    }

    ghost function Room(): Room
      reads this`depth
      requires depth <= maxDepth
    {
      LangBindings.Room(maxFragmentTokens, maxDepth - depth)
    }

    /** Outer names, log, open scopes, depth and writes are as they were. */
    twostate predicate Restored()
      reads this, bound
    {
      && bound.names == old(bound.names)
      && bound.undo == old(bound.undo)
      && ScopesKept(bound.checked, old(bound.scopes), bound.scopes)
      && depth == old(depth)
      && written == old(written)
    }

    /** The outcome is success exactly when the demand fits, and then it has been paid. */
    twostate predicate Settled(outcome: Outcome, d: Demand)
      requires old(depth) <= maxDepth
      reads this
    {
      && (outcome.Done? <==> Fits(d, old(Now()), old(Room())))
      && (outcome.Done? ==> Now() == Pay(old(Now()), d))
    }

    method Expr(e: Expr, ghost levels: nat) returns (r: Outcome)
      requires depth <= maxDepth <= depth + levels
      modifies this, bound
      ensures Restored()
      ensures Settled(r, Under(bound.names, OfExpr(g, levels, e)))
      decreases maxDepth - depth, 0
    {
      if depth >= maxDepth {
        return Failed(NestingBudget);
      }
      depth := depth + 1;
      r := Inside(e, levels);
      depth := depth - 1;
    }

    method Inside(e: Expr, ghost levels: nat) returns (r: Outcome)
      requires depth <= maxDepth < depth + levels
      modifies this, bound
      ensures Restored()
      ensures Settled(r, Under(bound.names, OfInside(g, levels, e)))
      decreases maxDepth - depth, 10
    {
      match e {
        case Text(text) =>
          r := Interpolations(text, levels);
        case Name(name) =>
          Mentioned(name);
          r := Done;
        case List(values) =>
          r := Exprs(values, levels);
        case Record(fields) =>
          r := Fields(fields, levels);
        case Lambda(params, body) =>
          r := Scoped(None, params, body, levels);
        case Match(subject, arms) =>
          r := Cases(subject, arms, levels);
        case Handle(handled, handlers) =>
          r := Cases(handled, handlers, levels);
        case Block(forms) =>
          r := Block(forms, levels);
        case _ =>
          r := Operands(e, levels);
      }
    }

    /** The expressions that only hold other expressions, and the literals, which hold none. */
    method Operands(e: Expr, ghost levels: nat) returns (r: Outcome)
      requires !e.Text? && !e.Name? && !e.List? && !e.Record? && !e.Lambda?
      requires !e.Match? && !e.Handle? && !e.Block?
      requires depth <= maxDepth < depth + levels
      modifies this, bound
      ensures Restored()
      ensures Settled(r, Under(bound.names, OfInside(g, levels, e)))
      decreases maxDepth - depth, 9
    {
      match e {
        case Apply(callee, argument) =>
          r := Both(callee, argument, levels);
        case Field(target, _) =>
          r := Expr(target, levels);
        case Unary(value) =>
          r := Expr(value, levels);
        case Binary(left, right) =>
          r := Both(left, right, levels);
        case Pipe(piped, into) =>
          r := Both(piped, into, levels);
        case If(condition, thenValue, elseValue) =>
          r := Three(condition, thenValue, elseValue, levels);
        case _ =>
          r := Done;
      }
    }

    method Both(a: Expr, b: Expr, ghost levels: nat) returns (r: Outcome)
      requires depth <= maxDepth < depth + levels
      modifies this, bound
      ensures Restored()
      ensures Settled(r, Under(bound.names, Plus(OfExpr(g, levels, a), OfExpr(g, levels, b))))
      decreases maxDepth - depth, 1
    {
      ghost var first := Under(bound.names, OfExpr(g, levels, a));
      ghost var second := Under(bound.names, OfExpr(g, levels, b));
      UnderPlus(bound.names, OfExpr(g, levels, a), OfExpr(g, levels, b));
      PaidFirst(Now(), Plus(first, second), Now(), first, second, Room());
      r := Expr(a, levels);
      if r.Done? {
        r := Expr(b, levels);
      }
    }

    method Three(a: Expr, b: Expr, c: Expr, ghost levels: nat) returns (r: Outcome)
      requires depth <= maxDepth < depth + levels
      modifies this, bound
      ensures Restored()
      ensures Settled(r, Under(bound.names,
                Plus(OfExpr(g, levels, a), Plus(OfExpr(g, levels, b), OfExpr(g, levels, c)))))
      decreases maxDepth - depth, 2
    {
      ghost var first := Under(bound.names, OfExpr(g, levels, a));
      ghost var rest := Plus(OfExpr(g, levels, b), OfExpr(g, levels, c));
      UnderPlus(bound.names, OfExpr(g, levels, a), rest);
      PaidFirst(Now(), Plus(first, Under(bound.names, rest)), Now(), first, Under(bound.names, rest), Room());
      r := Expr(a, levels);
      if r.Done? {
        r := Both(b, c, levels);
      }
    }

    method Exprs(es: seq<Expr>, ghost levels: nat) returns (r: Outcome)
      requires depth <= maxDepth < depth + levels
      modifies this, bound
      ensures Restored()
      ensures Settled(r, Under(bound.names, OfExprs(g, levels, es)))
      decreases maxDepth - depth, 1
    {
      ghost var total := Under(bound.names, OfExprs(g, levels, es));
      for i := 0 to |es|
        invariant Restored()
        invariant Left(old(Now()), total, Now(), Under(bound.names, OfExprs(g, levels, es[i..])), Room())
      {
        ghost var first, rest := OfExpr(g, levels, es[i]), OfExprs(g, levels, es[i + 1..]);
        assert es[i..][1..] == es[i + 1..];
        UnderPlus(bound.names, first, rest);
        PaidFirst(old(Now()), total, Now(), Under(bound.names, first), Under(bound.names, rest), Room());
        r := Expr(es[i], levels);
        if r.Failed? {
          return;
        }
      }
      r := Done;
    }

    method Fields(fs: seq<ExprField>, ghost levels: nat) returns (r: Outcome)
      requires depth <= maxDepth < depth + levels
      modifies this, bound
      ensures Restored()
      ensures Settled(r, Under(bound.names, OfFields(g, levels, fs)))
      decreases maxDepth - depth, 1
    {
      ghost var total := Under(bound.names, OfFields(g, levels, fs));
      for i := 0 to |fs|
        invariant Restored()
        invariant Left(old(Now()), total, Now(), Under(bound.names, OfFields(g, levels, fs[i..])), Room())
      {
        ghost var first, rest := OfExpr(g, levels, fs[i].value), OfFields(g, levels, fs[i + 1..]);
        assert fs[i..][1..] == fs[i + 1..];
        UnderPlus(bound.names, first, rest);
        PaidFirst(old(Now()), total, Now(), Under(bound.names, first), Under(bound.names, rest), Room());
        r := Expr(fs[i].value, levels);
        if r.Failed? {
          return;
        }
      }
      r := Done;
    }

    method Cases(subject: Expr, arms: seq<Arm>, ghost levels: nat) returns (r: Outcome)
      requires depth <= maxDepth < depth + levels
      modifies this, bound
      ensures Restored()
      ensures Settled(r, Under(bound.names, Plus(OfExpr(g, levels, subject), OfArms(g, levels, arms))))
      decreases maxDepth - depth, 4
    {
      ghost var first, rest := OfExpr(g, levels, subject), OfArms(g, levels, arms);
      UnderPlus(bound.names, first, rest);
      PaidFirst(Now(), Under(bound.names, Plus(first, rest)), Now(),
                Under(bound.names, first), Under(bound.names, rest), Room());
      r := Expr(subject, levels);
      if r.Done? {
        r := Arms(arms, levels);
      }
    }

    method Arms(arms: seq<Arm>, ghost levels: nat) returns (r: Outcome)
      requires depth <= maxDepth < depth + levels
      modifies this, bound
      ensures Restored()
      ensures Settled(r, Under(bound.names, OfArms(g, levels, arms)))
      decreases maxDepth - depth, 3
    {
      ghost var total := Under(bound.names, OfArms(g, levels, arms));
      for i := 0 to |arms|
        invariant Restored()
        invariant Left(old(Now()), total, Now(), Under(bound.names, OfArms(g, levels, arms[i..])), Room())
      {
        ghost var first, rest := OfArm(g, levels, arms[i]), OfArms(g, levels, arms[i + 1..]);
        assert arms[i..][1..] == arms[i + 1..];
        UnderPlus(bound.names, first, rest);
        PaidFirst(old(Now()), total, Now(), Under(bound.names, first), Under(bound.names, rest), Room());
        assert [arms[i].pattern][1..] == [] && NamesOfAll([arms[i].pattern]) == Names(arms[i].pattern);
        r := Scoped(None, [arms[i].pattern], arms[i].value, levels);
        if r.Failed? {
          return;
        }
      }
      r := Done;
    }

    /** A body in a scope of its own, which binds a function's own name and its parameters. */
    method Scoped(own: Option<string>, params: seq<Pattern>, body: Expr, ghost levels: nat) returns (r: Outcome)
      requires depth <= maxDepth <= depth + levels
      modifies this, bound
      ensures Restored()
      ensures Settled(r, Under(bound.names, Under(OwnNames(own) + NamesOfAll(params), OfExpr(g, levels, body))))
      decreases maxDepth - depth, 1
    {
      ghost var names0, undo0 := bound.names, bound.undo;
      var checkpoint := bound.BeginScope();
      assert bound.undo[|undo0|..] == [];
      if own.Some? {
        bound.Insert(own.value);
      }
      ghost var names1, undo1 := bound.names, bound.undo;
      bound.BindAll(params);
      LoggedThen(names0, undo0, names1, undo1, bound.names, bound.undo);
      UnderUnder(names0, OwnNames(own) + NamesOfAll(params), OfExpr(g, levels, body));
      assert bound.names == names0 + (OwnNames(own) + NamesOfAll(params));
      r := Expr(body, levels);
      bound.RollbackScope(checkpoint);
      assert bound.names == names0;
    }

    method Block(forms: seq<Form>, ghost levels: nat) returns (r: Outcome)
      requires depth <= maxDepth <= depth + levels
      modifies this, bound
      ensures Restored()
      ensures Settled(r, Under(bound.names, OfForms(g, levels, forms)))
      decreases maxDepth - depth, 4
    {
      ghost var names0, undo0 := bound.names, bound.undo;
      var checkpoint := bound.BeginScope();
      r := Cell(forms, false, levels);
      bound.RollbackScope(checkpoint);
      assert bound.names == names0;
    }

    method Cell(forms: seq<Form>, persistent: bool, ghost levels: nat) returns (r: Outcome)
      requires depth <= maxDepth <= depth + levels
      modifies this, bound
      ensures Settled(r, Under(old(bound.names), OfForms(g, levels, forms)))
      ensures r.Done? ==> bound.names == old(bound.names) + BindsOfAll(forms)
      ensures r.Done? ==> written == old(written) + (if persistent then BindsOfAll(forms) else {})
      ensures !persistent ==> written == old(written)
      ensures old(bound.scopes) != [] ==> Logged(old(bound.names), old(bound.undo), bound.names, bound.undo)
      ensures ScopesKept(bound.checked, old(bound.scopes), bound.scopes) && depth == old(depth)
      decreases maxDepth - depth, 3
    {
      ghost var total := Under(bound.names, OfForms(g, levels, forms));
      assert bound.undo[|bound.undo|..] == [];
      for i := 0 to |forms|
        invariant depth == old(depth)
        invariant ScopesKept(bound.checked, old(bound.scopes), bound.scopes)
        invariant old(bound.scopes) != [] ==> Logged(old(bound.names), old(bound.undo), bound.names, bound.undo)
        invariant bound.names + BindsOfAll(forms[i..]) == old(bound.names) + BindsOfAll(forms)
        invariant persistent ==> written + BindsOfAll(forms[i..]) == old(written) + BindsOfAll(forms)
        invariant !persistent ==> written == old(written)
        invariant Left(old(Now()), total, Now(), Under(bound.names, OfForms(g, levels, forms[i..])), Room())
      {
        ghost var f := forms[i];
        ghost var first, rest := OfForm(g, levels, f), OfForms(g, levels, forms[i + 1..]);
        assert forms[i..][1..] == forms[i + 1..];
        UnderPlus(bound.names, first, Under(Binds(f), rest));
        UnderUnder(bound.names, Binds(f), rest);
        PaidFirst(old(Now()), total, Now(), Under(bound.names, first), Under(bound.names + Binds(f), rest), Room());
        ghost var names1, undo1 := bound.names, bound.undo;
        r := Form(forms[i], persistent, levels);
        if old(bound.scopes) != [] {
          LoggedThen(old(bound.names), old(bound.undo), names1, undo1, bound.names, bound.undo);
        }
        if r.Failed? {
          return;
        }
      }
      r := Done;
    }

    method Form(f: Form, persistent: bool, ghost levels: nat) returns (r: Outcome)
      requires depth <= maxDepth <= depth + levels
      modifies this, bound
      ensures Settled(r, Under(old(bound.names), OfForm(g, levels, f)))
      ensures r.Failed? ==> Restored()
      ensures r.Done? ==> bound.names == old(bound.names) + Binds(f)
      ensures r.Done? ==> written == old(written) + (if persistent then Binds(f) else {})
      ensures old(bound.scopes) != [] ==> Logged(old(bound.names), old(bound.undo), bound.names, bound.undo)
      ensures ScopesKept(bound.checked, old(bound.scopes), bound.scopes) && depth == old(depth)
      decreases maxDepth - depth, 2
    {
      assert bound.undo[|bound.undo|..] == [];
      match f {
        case TypeForm =>
          r := Done;
        case Let(pattern, value) =>
          r := Expr(value, levels);
          if r.Done? {
            if persistent {
              written := RecordPatternNames(pattern, written);
            }
            bound.BindPattern(pattern);
          }
        case Fun(name, params, body) =>
          r := Scoped(Some(name), params, body, levels);
          if r.Done? {
            if persistent {
              written := written + {name};
            }
            bound.Insert(name);
          }
        case Eval(expr) =>
          r := Expr(expr, levels);
      }
    }

    method Mentioned(name: string)
      requires depth <= maxDepth
      modifies this`read
      ensures Settled(Done, Under(bound.names, NOTHING.(free := {name})))
    {
      var known := bound.Contains(name);
      if !known {
        read := read + {name};
      }
    }

    /** Scans a string literal for names and fragments. */
    method Interpolations(s: string, ghost levels: nat) returns (r: Outcome)
      requires depth <= maxDepth < depth + levels
      modifies this, bound
      ensures Restored()
      ensures Settled(r, Under(bound.names, OfParts(g, levels, Parts(g, s, 0))))
      decreases maxDepth - depth, 9
    {
      ghost var total := Under(bound.names, OfParts(g, levels, Parts(g, s, 0)));
      var index := 0;
      while index < |s|
        invariant index <= |s|
        invariant Restored()
        invariant Left(old(Now()), total, Now(), Under(bound.names, OfParts(g, levels, Parts(g, s, index))), Room())
      {
        if s[index] == '\\' {
          assert Parts(g, s, index) == Parts(g, s, Min(index + 2, |s|));
          index := Min(index + 2, |s|);
        } else if s[index] != '#' {
          assert Parts(g, s, index) == Parts(g, s, index + 1);
          index := index + 1;
        } else {
          ghost var now := Now();
          ghost var head;
          r, index, head := Marker(s, index, levels);
          NextParts(old(Now()), total, now, bound.names, g, levels, head, Parts(g, s, index), Room());
          if r.Failed? {
            return;
          }
        }
      }
      r := Done;
    }

    /** Handles a braced fragment, unless its brace is not closed. */
    method Braced(s: string, i: nat, ghost levels: nat) returns (r: Outcome, next: nat, ghost head: seq<Part>)
      requires depth <= maxDepth < depth + levels
      requires i + 1 < |s| && s[i] == '#' && s[i + 1] == '{'
      modifies this, bound
      ensures Restored()
      ensures i < next <= |s| && Parts(g, s, i) == head + Parts(g, s, next)
      ensures Settled(r, Under(bound.names, OfParts(g, levels, head)))
      decreases maxDepth - depth, 8, 0
    {
      r, head := Done, [];
      next := FindClose(s, i + 2);
      if next < |s| {
        head := [Fragment(s[i + 2..next])];
        assert head[1..] == [];
        r := InterpolationExpression(s[i + 2..next], levels);
        next := next + 1;
      }
    }

    /** Handles the mark at `i`: a braced fragment, a name, or neither. */
    method Marker(s: string, i: nat, ghost levels: nat) returns (r: Outcome, next: nat, ghost head: seq<Part>)
      requires depth <= maxDepth < depth + levels
      requires i < |s| && s[i] == '#'
      modifies this, bound
      ensures Restored()
      ensures i < next <= |s| && Parts(g, s, i) == head + Parts(g, s, next)
      ensures Settled(r, Under(bound.names, OfParts(g, levels, head)))
      decreases maxDepth - depth, 8, 1
    {
      r, head := Done, [];
      if i + 1 < |s| && s[i + 1] == '{' {
        r, next, head := Braced(s, i, levels);
      } else {
        next := FindWordEnd(s, i + 1);
        if next > i + 1 {
          head := [Mention(s[i + 1..next])];
          assert head[1..] == [];
          Mentioned(s[i + 1..next]);
        }
      }
    }

    method FindClose(s: string, start: nat) returns (end: nat)
      requires start <= |s|
      ensures end == Close(s, start, 1)
    {
      end := start;
      var open := 1;
      while end < |s| && open > 0
        invariant start <= end <= |s|
        invariant open == 0 ==> end < |s| && s[end] == '}' && Close(s, start, 1) == end
        invariant open > 0 ==> Close(s, start, 1) == Close(s, end, open)
        decreases |s| - end, open
      {
        match s[end] {
          case '{' => open := open + 1;
          case '}' => open := open - 1;
          case _ =>
        }
        if open > 0 {
          end := end + 1;
        }
      }
    }

    method FindWordEnd(s: string, start: nat) returns (end: nat)
      requires start <= |s|
      ensures end == WordEnd(g, s, start)
    {
      end := start;
      while end < |s| && (s[end] == '_' || g.alphanumeric(s[end]))
        invariant start <= end <= |s|
        invariant WordEnd(g, s, start) == WordEnd(g, s, end)
      {
        end := end + 1;
      }
    }

    /** Parses a fragment within the shared budgets and analyses it in a scope of its own. */
    method InterpolationExpression(source: string, ghost levels: nat) returns (r: Outcome)
      requires depth <= maxDepth < depth + levels
      modifies this, bound
      ensures Restored()
      ensures Settled(r, Under(bound.names, OfFragment(g, levels, source)))
      decreases maxDepth - depth, 7
    {
      if ByteLength(source) > remainingBytes {
        return Failed(SourceBudget);
      }
      if depth >= maxDepth {
        return Failed(NestingBudget);
      }
      var tokens := LexBounded(g, source, Min(maxFragmentTokens, remainingTokens));
      if tokens.Err? {
        return Failed(tokens.error);
      }
      remainingBytes := remainingBytes - ByteLength(source);
      remainingTokens := remainingTokens - tokens.value;
      var parsed := ParseBounded(g, source, ByteLength(source), tokens.value, maxDepth - depth);
      if parsed.Err? {
        return Failed(parsed.error);
      }
      r := Block(parsed.value, levels - 1);
    }
  }

  /**
   * The free reads and persistent writes of a cell. The analysis succeeds exactly when the cell
   * parses within the limits and its demand fits the fragment allowances; what it then reports are
   * the cell's free names and the names its top-level forms bind.
   */
  method BindingUsage(g: Grammar, source: string, maxBytes: nat, maxTokens: nat, maxDepth: nat, checked: bool)
    returns (r: Result<Usage, Fault>)
    ensures
      var parsed := ParseBounded(g, source, maxBytes, maxTokens, maxDepth);
      var ledger := Ledger({}, maxBytes, Min(2 * maxBytes, U64_MAX));
      && (parsed.Err? ==> r == Err(parsed.error))
      && (parsed.Ok? ==>
            var demand := OfForms(g, maxDepth, parsed.value);
            && (r.Ok? <==> Fits(demand, ledger, Room(maxTokens, maxDepth)))
            && (r.Ok? ==> r.value == Usage(demand.free, BindsOfAll(parsed.value))))
    ensures r.Ok? ==>
      && ByteLength(source) <= maxBytes && g.nesting(source) <= maxDepth && g.cell(source).Some?
      && g.tokens(source).Some? && g.tokens(source).value <= maxTokens
  {
    var parsed := ParseBounded(g, source, maxBytes, maxTokens, maxDepth);
    if parsed.Err? {
      return Err(parsed.error);
    }
    var analyzer := new Analyzer(g, maxBytes, maxTokens, maxDepth, checked);
    assert Under({}, OfForms(g, maxDepth, parsed.value)) == OfForms(g, maxDepth, parsed.value);
    var outcome := analyzer.Cell(parsed.value, true, maxDepth);
    if outcome.Failed? {
      return Err(outcome.fault);
    }
    r := Ok(Usage(analyzer.read, analyzer.written));
  }
}

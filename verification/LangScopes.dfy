/** The set of bound names with its undo log, as the binding analysis updates it in place. */
module LangScopes {
  import opened LangSyntax

  function NameSet(s: seq<string>): set<string> {
    set x | x in s
  }

  /** The log recorded exactly the names that were added to `names0`. */
  ghost predicate Logged(names0: set<string>, undo0: seq<string>, names: set<string>, undo: seq<string>) {
    && undo0 <= undo
    && NameSet(undo[|undo0|..]) !! names0
    && names == names0 + NameSet(undo[|undo0|..])
  }

  lemma {:induction false} LoggedThen(
    n0: set<string>, u0: seq<string>, n1: set<string>, u1: seq<string>, n2: set<string>, u2: seq<string>)
    requires Logged(n0, u0, n1, u1) && Logged(n1, u1, n2, u2)
    ensures Logged(n0, u0, n2, u2)
  {
    assert u2[|u0|..] == u1[|u0|..] + u2[|u1|..];
    assert NameSet(u2[|u0|..]) == NameSet(u1[|u0|..]) + NameSet(u2[|u1|..]);
  }

  /** The stack of open scopes as a balanced piece of work leaves it, popping compiled in or not. */
  ghost predicate ScopesKept(checked: bool, before: seq<nat>, after: seq<nat>) {
    if checked then after == before else before <= after
  }

  class ScopedBoundSet {
    var names: set<string>
    var undo: seq<string>
    var scopes: seq<nat>
    /** Whether debug assertions, and so the pop inside one, are compiled in. */
    const checked: bool

    constructor (checked: bool)
      ensures names == {} && undo == [] && scopes == [] && this.checked == checked
    {
      names, undo, scopes := {}, [], [];
      this.checked := checked;
    }

    method BeginScope() returns (checkpoint: nat)
      modifies this`scopes
      ensures checkpoint == |undo|
      ensures scopes == old(scopes) + [checkpoint]
    {
      checkpoint := |undo|;
      scopes := scopes + [checkpoint];
    }

    /** Undoes every addition logged after the checkpoint. */
    method RollbackScope(checkpoint: nat)
      requires checkpoint <= |undo|
      requires checked ==> scopes != [] && scopes[|scopes| - 1] == checkpoint
      modifies this
      ensures undo == old(undo)[..checkpoint]
      ensures names == old(names) - NameSet(old(undo)[checkpoint..])
      ensures scopes == if checked then old(scopes)[..|old(scopes)| - 1] else old(scopes)
    {
      if checked {
        scopes := scopes[..|scopes| - 1];
      }
      while |undo| > checkpoint
        invariant checkpoint <= |undo| <= |old(undo)|
        invariant undo == old(undo)[..|undo|]
        invariant names == old(names) - NameSet(old(undo)[|undo|..])
        invariant scopes == if checked then old(scopes)[..|old(scopes)| - 1] else old(scopes)
      {
        var name := undo[|undo| - 1];
        ghost var k := |undo| - 1;
        assert old(undo)[k..] == [name] + old(undo)[k + 1..];
        undo := undo[..|undo| - 1];
        names := names - {name};
      }
    }

    method Insert(name: string)
      modifies this`names, this`undo
      ensures names == old(names) + {name}
      ensures scopes != [] ==> Logged(old(names), old(undo), names, undo)
    {
      if name !in names {
        names := names + {name};
        if scopes != [] {
          undo := undo + [name];
          assert undo[|old(undo)|..] == [name];
        }
      } else {
        assert undo[|undo|..] == [];
      }
    }

    method Contains(name: string) returns (r: bool)
      ensures r <==> name in names
    {
      r := name in names;
    }

    /** Adds the names of a pattern, taking patterns apart on a worklist. */
    method BindPattern(pattern: Pattern)
      modifies this`names, this`undo
      ensures names == old(names) + Names(pattern)
      ensures scopes != [] ==> Logged(old(names), old(undo), names, undo)
    {
      var pending := [pattern];
      assert pending[1..] == [];
      assert undo[|undo|..] == [];
      while pending != []
        invariant names + NamesOfAll(pending) == old(names) + Names(pattern)
        invariant scopes != [] ==> Logged(old(names), old(undo), names, undo)
        decreases SizeOfAll(pending)
      {
        var last := pending[|pending| - 1];
        var rest := pending[..|pending| - 1];
        Opened(last);
        AllOfConcat(rest, [last]);
        AllOfConcat(rest, Inner(last));
        assert pending == rest + [last] && [last][1..] == [];
        ghost var names1, undo1 := names, undo;
        match last {
          case Bind(name) => Insert(name);
          case _ =>
        }
        if scopes != [] && last.Bind? {
          LoggedThen(old(names), old(undo), names1, undo1, names, undo);
        }
        pending := rest + Inner(last);
      }
    }

    method BindAll(patterns: seq<Pattern>)
      modifies this`names, this`undo
      ensures names == old(names) + NamesOfAll(patterns)
      ensures scopes != [] ==> Logged(old(names), old(undo), names, undo)
    {
      assert undo[|undo|..] == [];
      for i := 0 to |patterns|
        invariant names + NamesOfAll(patterns[i..]) == old(names) + NamesOfAll(patterns)
        invariant scopes != [] ==> Logged(old(names), old(undo), names, undo)
      {
        ghost var names1, undo1 := names, undo;
        BindPattern(patterns[i]);
        if scopes != [] {
          LoggedThen(old(names), old(undo), names1, undo1, names, undo);
        }
        assert patterns[i..][1..] == patterns[i + 1..];
      }
    }
  }

  /** Adds the names of a pattern to the persistent writes, by the same worklist. */
  method RecordPatternNames(pattern: Pattern, names: set<string>) returns (r: set<string>)
    ensures r == names + Names(pattern)
  {
    r := names;
    var pending := [pattern];
    assert pending[1..] == [];
    while pending != []
      invariant r + NamesOfAll(pending) == names + Names(pattern)
      decreases SizeOfAll(pending)
    {
      var last := pending[|pending| - 1];
      var rest := pending[..|pending| - 1];
      Opened(last);
      AllOfConcat(rest, [last]);
      AllOfConcat(rest, Inner(last));
      assert pending == rest + [last] && [last][1..] == [];
      match last {
        case Bind(name) => r := r + {name};
        case _ =>
      }
      pending := rest + Inner(last);
    }
  }
}

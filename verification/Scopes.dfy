/** Scopes while parsing: a stack of symbol tables driven by two flags, and the lexical scoping it
    implements. */
module Scopes {
  import opened Words

  // ----- what is parsed -----

  /** The part of a block that touches the symbol table, in source order: declarations, identifiers, and
      nested blocks (a plain block, a branch, a loop body). */
  datatype Body = Done | Declare(x: string, next: Body) | Mention(x: string, next: Body) | Nest(inner: Body, next: Body)

  /** A global variable with the identifiers of its initialiser, or a method; None: EXTERN. */
  datatype Decl = Global(init: seq<string>, x: string) | Proc(name: string, params: seq<string>, body: Option<Body>)

  predicate HasNest(b: Body) {
    match b
    case Done => false
    case Declare(_, next) => HasNest(next)
    case Mention(_, next) => HasNest(next)
    case Nest(_, _) => true
  }

  // ----- the parser's state -----

  /** scope: the scope recorded for a method. */
  datatype Symbol = Symbol(name: string, scope: Option<nat>)

  /** A symbol table; id tells scopes apart, in order of allocation. */
  datatype Scope = Scope(id: nat, syms: seq<Symbol>)

  /** An identifier met: the scope it was found in, and the scope depth at that point. */
  datatype Use = Use(scope: nat, depth: nat)

  /** levels[0] is the global scope and the last is the current one; uses lists every identifier met so
      far. */
  datatype State = State(levels: seq<Scope>, next: nat, suppress: bool, last: bool, uses: seq<Use>)

  const INIT := State([Scope(0, [])], 1, false, false, [])

  predicate Names(syms: seq<Symbol>, x: string) {
    exists i :: 0 <= i < |syms| && syms[i].name == x
  }

  /** The innermost level that declares x. */
  function LevelOf(levels: seq<Scope>, x: string): (r: Option<nat>)
    ensures r.Some? ==> r.value < |levels| && Names(levels[r.value].syms, x)
    ensures r.Some? ==> forall i :: r.value < i < |levels| ==> !Names(levels[i].syms, x)
    ensures r.None? ==> forall i :: 0 <= i < |levels| ==> !Names(levels[i].syms, x)
  {
    if levels == [] then None
    else if Names(levels[|levels| - 1].syms, x) then Some(|levels| - 1)
    else LevelOf(levels[..|levels| - 1], x)
  }

  function Pushed(s: State): State {
    s.(levels := s.levels + [Scope(s.next, [])], next := s.next + 1)
  }

  /** The global scope is never popped. */
  function Popped(s: State): State {
    if |s.levels| > 1 then s.(levels := s.levels[..|s.levels| - 1]) else s
  }

  function WithSymbol(levels: seq<Scope>, i: nat, sym: Symbol): seq<Scope>
    requires i < |levels|
  {
    levels[i := Scope(levels[i].id, levels[i].syms + [sym])]
  }

  /** None: the error exit of a redeclaration. */
  function Added(s: State, x: string): Option<State>
    requires |s.levels| > 0
  {
    var top := |s.levels| - 1;
    if Names(s.levels[top].syms, x) then None
    else Some(s.(levels := WithSymbol(s.levels, top, Symbol(x, None))))
  }

  /** None: the error exit of an undeclared identifier. */
  function Used(s: State, x: string): Option<State> {
    match LevelOf(s.levels, x)
    case None => None
    case Some(i) => Some(s.(uses := s.uses + [Use(s.levels[i].id, |s.levels|)]))
  }

  function ArgsOpened(s: State): State {
    Pushed(s).(suppress := true)
  }

  function Opened(s: State): State {
    if s.suppress then s.(last := false, suppress := false) else Pushed(s).(last := true)
  }

  function Closed(s: State): State {
    if s.last then Popped(s) else s
  }

  /** The method is recorded globally, with the scope that is current, unless its name is found; then
      its scope is popped. */
  function MethodEnded(s: State, f: string): Option<State>
    requires |s.levels| > 0
  {
    if LevelOf(s.levels, f).Some? then None
    else Some(Popped(s.(levels := WithSymbol(s.levels, 0, Symbol(f, Some(s.levels[|s.levels| - 1].id))))))
  }

  // ----- the parser's actions in the order of the text -----

  function RunBody(b: Body, s: State): (r: Option<State>)
    requires |s.levels| > 0
    ensures r.Some? ==> |r.value.levels| > 0
    decreases b
  {
    match b
    case Done => Some(s)
    case Declare(x, next) => (match Added(s, x) case None => None case Some(s1) => RunBody(next, s1))
    case Mention(x, next) => (match Used(s, x) case None => None case Some(s1) => RunBody(next, s1))
    case Nest(inner, next) =>
      (match RunBody(inner, Opened(s))
       case None => None
       case Some(s1) => RunBody(next, Closed(s1)))
  }

  function RunNames(xs: seq<string>, s: State, declare: bool): (r: Option<State>)
    requires |s.levels| > 0
    ensures r.Some? ==> |r.value.levels| > 0
    decreases |xs|
  {
    if xs == [] then Some(s)
    else match (if declare then Added(s, xs[0]) else Used(s, xs[0]))
      case None => None
      case Some(s1) => RunNames(xs[1..], s1, declare)
  }

  function RunDecl(d: Decl, s: State): (r: Option<State>)
    requires |s.levels| > 0
    ensures r.Some? ==> |r.value.levels| > 0
  {
    match d
    case Global(init, x) =>
      (match RunNames(init, s, false) case None => None case Some(s1) => Added(s1, x))
    case Proc(f, params, body) =>
      match RunNames(params, ArgsOpened(s), true)
      case None => None
      case Some(s1) =>
        match body
        case None => MethodEnded(s1, f)
        case Some(b) =>
          match RunBody(b, Opened(s1))
          case None => None
          case Some(s2) => MethodEnded(Closed(s2), f)
  }

  function RunProgram(ds: seq<Decl>, s: State): (r: Option<State>)
    requires |s.levels| > 0
    ensures r.Some? ==> |r.value.levels| > 0
    decreases |ds|
  {
    if ds == [] then Some(s)
    else match RunDecl(ds[0], s)
      case None => None
      case Some(s1) => RunProgram(ds[1..], s1)
  }

  // ----- lexical scoping -----

  /** env: the scope each visible name was declared in; own: the scope of the current block; next: the
      number of the next block opened; depth: how deep the text is nested. The environment of a block
      ends with the block. */
  datatype Lex = Lex(env: map<string, nat>, uses: seq<Use>, next: nat)

  function LexBody(b: Body, env: map<string, nat>, own: nat, next: nat, depth: nat): Option<Lex>
    decreases b
  {
    match b
    case Done => Some(Lex(env, [], next))
    case Declare(x, rest) =>
      if x in env && env[x] == own then None else LexBody(rest, env[x := own], own, next, depth)
    case Mention(x, rest) =>
      if x !in env then None
      else (match LexBody(rest, env, own, next, depth)
            case None => None
            case Some(r) => Some(Lex(r.env, [Use(env[x], depth)] + r.uses, r.next)))
    case Nest(inner, rest) =>
      match LexBody(inner, env, next, next + 1, depth + 1)
      case None => None
      case Some(r1) =>
        match LexBody(rest, env, own, r1.next, depth)
        case None => None
        case Some(r2) => Some(Lex(r2.env, r1.uses + r2.uses, r2.next))
  }

  function LexNames(xs: seq<string>, env: map<string, nat>, own: nat, declare: bool, depth: nat): Option<Lex>
    decreases |xs|
  {
    if xs == [] then Some(Lex(env, [], 0))
    else if declare then
      if xs[0] in env && env[xs[0]] == own then None else LexNames(xs[1..], env[xs[0] := own], own, declare, depth)
    else if xs[0] !in env then None
    else match LexNames(xs[1..], env, own, declare, depth)
      case None => None
      case Some(r) => Some(Lex(r.env, [Use(env[xs[0]], depth)] + r.uses, 0))
  }

  /** A method's name must be new in the global scope and, when its body has no nested block, among its
      own parameters and variables too. Lexical scoping asks for the first only: the second is the
      parser's rule, taken over into the reference. */
  predicate NameClash(f: string, global: map<string, nat>, inner: map<string, nat>, nested: bool) {
    if nested then f in global else f in inner
  }

  function LexDecl(d: Decl, env: map<string, nat>, next: nat): Option<Lex> {
    match d
    case Global(init, x) =>
      (match LexNames(init, env, 0, false, 1)
       case None => None
       case Some(r) => if x in env then None else Some(Lex(env[x := 0], r.uses, next)))
    case Proc(f, params, body) =>
      match LexNames(params, env, next, true, 2)
      case None => None
      case Some(r) =>
        match (if body.None? then Some(Lex(r.env, [], next + 1)) else LexBody(body.value, r.env, next, next + 1, 2))
        case None => None
        case Some(r2) =>
          if NameClash(f, env, r2.env, body.Some? && HasNest(body.value)) then None
          else Some(Lex(env[f := 0], r2.uses, r2.next))
  }

  function LexProgram(ds: seq<Decl>, env: map<string, nat>, next: nat): Option<Lex>
    decreases |ds|
  {
    if ds == [] then Some(Lex(env, [], next))
    else match LexDecl(ds[0], env, next)
      case None => None
      case Some(r1) =>
        match LexProgram(ds[1..], r1.env, r1.next)
        case None => None
        case Some(r2) => Some(Lex(r2.env, r1.uses + r2.uses, r2.next))
  }

  // ----- the stack of tables implements it -----

  /** The environment shows, for every name, the innermost level that declares it. */
  ghost predicate Shows(levels: seq<Scope>, env: map<string, nat>) {
    forall x ::
      if LevelOf(levels, x).Some? then x in env && env[x] == levels[LevelOf(levels, x).value].id else x !in env
  }

  ghost predicate Fresh(s: State) {
    && |s.levels| > 0
    && (forall i :: 0 <= i < |s.levels| ==> s.levels[i].id < s.next)
    && (forall i, j :: 0 <= i < j < |s.levels| ==> s.levels[i].id != s.levels[j].id)
  }

  /** s1 differs from s in what the current scope declares and in the uses only. */
  ghost predicate SameOuter(s: State, s1: State) {
    && |s1.levels| == |s.levels| > 0 && s1.levels[..|s1.levels| - 1] == s.levels[..|s.levels| - 1]
    && s1.levels[|s1.levels| - 1].id == s.levels[|s.levels| - 1].id
  }

  function Top(s: State): nat
    requires |s.levels| > 0
  {
    s.levels[|s.levels| - 1].id
  }

  lemma {:induction false} AddShows(s: State, x: string, env: map<string, nat>)
    requires Fresh(s) && Shows(s.levels, env)
    ensures Added(s, x).None? <==> x in env && env[x] == Top(s)
    ensures Added(s, x).Some? ==>
      var s1 := Added(s, x).value;
      Fresh(s1) && Shows(s1.levels, env[x := Top(s)]) && SameOuter(s, s1) && s1 == s.(levels := s1.levels)
  {
    hide Names;
    TopShows(s, x, env);
    var top := |s.levels| - 1;
    if !Names(s.levels[top].syms, x) {
      var s1 := Added(s, x).value;
      assert s1.levels[..top] == s.levels[..top];
      hide LevelOf;
      AddedLevels(s.levels, x);
    }
  }

  /** The environment has x at the current scope exactly when that scope's table names it. */
  lemma {:induction false} TopShows(s: State, x: string, env: map<string, nat>)
    requires Fresh(s) && Shows(s.levels, env)
    ensures Names(s.levels[|s.levels| - 1].syms, x) <==> x in env && env[x] == Top(s)
  {
    hide Names;
  }

  /** A new name is found in the current scope, every other where it was. */
  lemma {:induction false} AddedLevels(levels: seq<Scope>, x: string)
    requires |levels| > 0
    ensures forall y ::
      LevelOf(WithSymbol(levels, |levels| - 1, Symbol(x, None)), y)
      == if y == x then Some(|levels| - 1) else LevelOf(levels, y)
  {
    hide Names;
    var top, sym := |levels| - 1, Symbol(x, None);
    var l1 := WithSymbol(levels, top, sym);
    assert l1[..top] == levels[..top];
    forall y
      ensures LevelOf(l1, y) == if y == x then Some(top) else LevelOf(levels, y)
    {
      MoreNames(levels[top].syms, sym, y);
    }
  }

  lemma {:induction false} MoreNames(syms: seq<Symbol>, sym: Symbol, y: string)
    ensures Names(syms + [sym], y) <==> Names(syms, y) || y == sym.name
  {
    if Names(syms, y) {
      var i :| 0 <= i < |syms| && syms[i].name == y;
      assert (syms + [sym])[i].name == y;
    }
    assert (syms + [sym])[|syms|] == sym;
  }

  lemma {:induction false} PushShows(s: State, env: map<string, nat>)
    requires Fresh(s) && Shows(s.levels, env)
    ensures Fresh(Pushed(s)) && Shows(Pushed(s).levels, env) && Top(Pushed(s)) == s.next
    ensures Pushed(s).levels[..|s.levels|] == s.levels
  {
    var l := Pushed(s).levels;
    assert l[..|l| - 1] == s.levels;
    forall x
      ensures LevelOf(l, x) == LevelOf(s.levels, x)
    {
      assert !Names(l[|l| - 1].syms, x);
    }
  }

  /** The parser accepts b exactly when lexical scoping does, finds every identifier in the same scope,
      and leaves the scopes around b as they were. */
  ghost predicate Agrees(b: Body, s: State, env: map<string, nat>)
    requires |s.levels| > 0
  {
    var r, l := RunBody(b, s), LexBody(b, env, Top(s), s.next, |s.levels|);
    && (r.None? <==> l.None?)
    && (r.Some? ==> BodyDone(s, r.value, env, l.value, HasNest(b)))
  }

  ghost predicate BodyDone(s: State, r: State, env: map<string, nat>, l: Lex, nested: bool) {
    && Fresh(r) && SameOuter(s, r) && Shows(r.levels, l.env)
    && r.uses == s.uses + l.uses && r.next == l.next >= s.next
    && !r.suppress && r.last == (s.last || nested)
  }

  lemma {:induction false} DeclareAgrees(x: string, next: Body, s: State, env: map<string, nat>)
    requires Fresh(s) && !s.suppress && Shows(s.levels, env)
    requires Added(s, x).Some? ==> Agrees(next, Added(s, x).value, env[x := Top(s)])
    ensures Agrees(Declare(x, next), s, env)
  {
    hide Shows, Added;
    AddShows(s, x, env);
  }

  lemma {:induction false} MentionAgrees(x: string, next: Body, s: State, env: map<string, nat>)
    requires Fresh(s) && !s.suppress && Shows(s.levels, env)
    requires Used(s, x).Some? ==> Agrees(next, Used(s, x).value, env)
    ensures Agrees(Mention(x, next), s, env)
  {
    hide Shows, Used;
    UseShows(s, x, env);
    if x in env && LexBody(next, env, Top(s), s.next, |s.levels|).Some? {
      var l := LexBody(next, env, Top(s), s.next, |s.levels|).value;
      assert (s.uses + [Use(env[x], |s.levels|)]) + l.uses == s.uses + ([Use(env[x], |s.levels|)] + l.uses);
    }
  }

  /** A nested block is a push, whatever the flags, and its end pops that push. */
  lemma {:induction false} NestAgrees(inner: Body, next: Body, s: State, env: map<string, nat>)
    requires Fresh(s) && !s.suppress && Shows(s.levels, env) && Agrees(inner, Opened(s), env)
    requires RunBody(inner, Opened(s)).Some? ==> Agrees(next, Closed(RunBody(inner, Opened(s)).value), env)
    ensures Agrees(Nest(inner, next), s, env)
  {
    hide Shows, Popped, Added, Used, Names;
    PushShows(s, env);
    var s1 := Opened(s);
    if RunBody(inner, s1).Some? {
      var s2 := RunBody(inner, s1).value;
      NestEnds(s, s1, s2);
      var l1 := LexBody(inner, env, s.next, s.next + 1, |s.levels| + 1).value;
      if LexBody(next, env, Top(s), l1.next, |s.levels|).Some? {
        var l2 := LexBody(next, env, Top(s), l1.next, |s.levels|).value;
        assert (s.uses + l1.uses) + l2.uses == s.uses + (l1.uses + l2.uses);
      }
    }
  }

  /** For every body with arbitrarily nested blocks: same acceptance, same scope for every identifier,
      and the surrounding scopes restored at its end. */
  lemma {:induction false} BodyScopes(b: Body, s: State, env: map<string, nat>)
    requires Fresh(s) && !s.suppress && Shows(s.levels, env)
    ensures Agrees(b, s, env)
    decreases b, 1
  {
    match b
    case Done =>
    case Declare(x, next) =>
      hide Shows, Agrees, Added;
      AddShows(s, x, env);
      if Added(s, x).Some? {
        BodyScopes(next, Added(s, x).value, env[x := Top(s)]);
      }
      DeclareAgrees(x, next, s, env);
    case Mention(x, next) =>
      hide Shows, Agrees, Used;
      UseShows(s, x, env);
      if Used(s, x).Some? {
        BodyScopes(next, Used(s, x).value, env);
      }
      MentionAgrees(x, next, s, env);
    case Nest(inner, next) =>
      NestStep(inner, next, s, env);
  }

  lemma {:induction false} NestStep(inner: Body, next: Body, s: State, env: map<string, nat>)
    requires Fresh(s) && !s.suppress && Shows(s.levels, env)
    ensures Agrees(Nest(inner, next), s, env)
    decreases Nest(inner, next), 0
  {
    hide Shows, RunBody, LexBody;
    PushShows(s, env);
    BodyScopes(inner, Opened(s), env);
    if RunBody(inner, Opened(s)).Some? {
      var s2 := RunBody(inner, Opened(s)).value;
      NestEnds(s, Opened(s), s2);
      BodyScopes(next, Closed(s2), env);
    }
    NestAgrees(inner, next, s, env);
  }

  lemma {:induction false} UseShows(s: State, x: string, env: map<string, nat>)
    requires Shows(s.levels, env)
    ensures Used(s, x).None? <==> x !in env
    ensures Used(s, x).Some? ==> Used(s, x).value == s.(uses := s.uses + [Use(env[x], |s.levels|)])
  {
  }

  /** What is left of a nested block when it ends: its uses and its numbers. */
  lemma {:induction false} NestEnds(s: State, s1: State, s2: State)
    requires Fresh(s) && !s.suppress && s1 == Opened(s) && SameOuter(s1, s2) && s2.last && s2.next >= s1.next
    ensures Closed(s2).levels == s.levels && Closed(s2) == s2.(levels := s.levels) && Fresh(Closed(s2))
  {
    assert s1.levels[..|s1.levels| - 1] == s.levels;
  }

  ghost predicate NamesAgree(xs: seq<string>, s: State, env: map<string, nat>, declare: bool)
    requires |s.levels| > 0
  {
    var r, l := RunNames(xs, s, declare), LexNames(xs, env, Top(s), declare, |s.levels|);
    && (r.None? <==> l.None?)
    && (r.Some? ==>
          && Fresh(r.value) && SameOuter(s, r.value) && Shows(r.value.levels, l.value.env)
          && r.value == s.(levels := r.value.levels, uses := s.uses + l.value.uses)
          && (if declare then l.value.uses == [] else r.value.levels == s.levels && l.value.env == env))
  }

  lemma {:induction false} DeclareNames(xs: seq<string>, s: State, env: map<string, nat>)
    requires Fresh(s) && Shows(s.levels, env)
    ensures NamesAgree(xs, s, env, true)
    decreases |xs|
  {
    hide Shows, Added;
    if xs == [] {
      assert s.uses + [] == s.uses;
    } else {
      AddShows(s, xs[0], env);
      if Added(s, xs[0]).Some? {
        DeclareNames(xs[1..], Added(s, xs[0]).value, env[xs[0] := Top(s)]);
      }
    }
  }

  lemma {:induction false} MentionNames(xs: seq<string>, s: State, env: map<string, nat>)
    requires Fresh(s) && Shows(s.levels, env)
    ensures NamesAgree(xs, s, env, false)
    decreases |xs|
  {
    hide Shows, Used;
    if xs == [] {
      assert s.uses + [] == s.uses;
    } else {
      UseShows(s, xs[0], env);
      if Used(s, xs[0]).Some? {
        MentionNames(xs[1..], Used(s, xs[0]).value, env);
        var l := LexNames(xs[1..], env, Top(s), false, |s.levels|);
        if l.Some? {
          var u := [Use(env[xs[0]], |s.levels|)];
          assert (s.uses + u) + l.value.uses == s.uses + (u + l.value.uses);
        }
      }
    }
  }

  // ----- declarations -----

  /** Between declarations only the global scope is open, whatever the flags are. */
  ghost predicate Outside(s: State) {
    Fresh(s) && |s.levels| == 1 && s.levels[0].id == 0
  }

  /** The scope recorded for a method: its own, unless its body has a nested block. */
  function RecordedScope(body: Option<Body>, own: nat): nat {
    if body.Some? && HasNest(body.value) then 0 else own
  }

  /** d is accepted exactly when lexical scoping accepts it, with the same scope for every identifier,
      and the parser is back in the global scope. */
  ghost predicate DeclAgrees(d: Decl, s: State, env: map<string, nat>)
    requires |s.levels| > 0
  {
    var r, l := RunDecl(d, s), LexDecl(d, env, s.next);
    && (r.None? <==> l.None?)
    && (r.Some? ==>
          && Outside(r.value) && Shows(r.value.levels, l.value.env)
          && r.value.uses == s.uses + l.value.uses && r.value.next == l.value.next
          && r.value.levels[0].syms == s.levels[0].syms
               + [match d
                  case Global(_, x) => Symbol(x, None)
                  case Proc(f, _, body) => Symbol(f, Some(RecordedScope(body, s.next)))])
  }

  lemma {:induction false} GlobalShows(g: Scope, sym: Symbol, env: map<string, nat>)
    requires Shows([g], env)
    ensures Shows([Scope(g.id, g.syms + [sym])], env[sym.name := g.id])
  {
    var g1 := Scope(g.id, g.syms + [sym]);
    forall y
      ensures LevelOf([g1], y) == if y == sym.name then Some(0) else LevelOf([g], y)
    {
      MoreNames(g.syms, sym, y);
      assert [g1][..0] == [] && [g][..0] == [];
    }
  }

  lemma {:induction false} FoundIff(levels: seq<Scope>, env: map<string, nat>, x: string)
    requires Shows(levels, env)
    ensures LevelOf(levels, x).Some? <==> x in env
  {
  }

  lemma {:induction false} GlobalScopes(init: seq<string>, x: string, s: State, env: map<string, nat>)
    requires Outside(s) && Shows(s.levels, env)
    ensures DeclAgrees(Global(init, x), s, env)
  {
    hide Shows, LevelOf, RunNames, LexNames;
    MentionNames(init, s, env);
    var r := RunNames(init, s, false);
    if r.Some? {
      assert s.levels == [s.levels[0]];
      AddShows(r.value, x, env);
      GlobalEnv(s.levels[0], env, x);
    }
  }

  /** In the global scope everything visible is global. */
  lemma {:induction false} GlobalEnv(g: Scope, env: map<string, nat>, x: string)
    requires Shows([g], env)
    ensures x in env ==> env[x] == g.id
  {
  }

  /** The end of a method: its name recorded, its scope gone. */
  lemma {:induction false} MethodEnds(s: State, env: map<string, nat>, s2: State, inner: map<string, nat>, f: string)
    requires Outside(s) && Shows(s.levels, env) && Fresh(s2)
    requires s2.levels == s.levels || (|s2.levels| == 2 && s2.levels[0] == s.levels[0])
    requires Shows(s2.levels, inner)
    ensures MethodEnded(s2, f).None? <==> f in inner
    ensures MethodEnded(s2, f).Some? ==>
      var r := MethodEnded(s2, f).value;
      && Outside(r) && Shows(r.levels, env[f := 0]) && r.uses == s2.uses && r.next == s2.next
      && r.levels[0].syms == s.levels[0].syms + [Symbol(f, Some(Top(s2)))]
  {
    hide Shows, LevelOf;
    FoundIff(s2.levels, inner, f);
    if MethodEnded(s2, f).Some? {
      var sym := Symbol(f, Some(Top(s2)));
      assert s.levels == [s.levels[0]];
      GlobalShows(s.levels[0], sym, env);
      assert MethodEnded(s2, f).value.levels == [Scope(0, s.levels[0].syms + [sym])];
    }
  }

  /** The parameters declared, the method's scope is the second level. */
  ghost predicate ParamsOpen(s: State, s1: State, env: map<string, nat>) {
    && |s.levels| > 0 && Fresh(s1) && |s1.levels| == 2 && s1.levels[0] == s.levels[0] && Top(s1) == s.next
    && Shows(s1.levels, env) && s1.uses == s.uses && s1.next == s.next + 1
  }

  lemma {:induction false} ParamsScopes(params: seq<string>, s: State, env: map<string, nat>)
    requires Outside(s) && Shows(s.levels, env)
    ensures var r, l := RunNames(params, ArgsOpened(s), true), LexNames(params, env, s.next, true, 2);
            && (r.None? <==> l.None?)
            && (r.Some? ==> ParamsOpen(s, r.value, l.value.env) && r.value.suppress)
  {
    hide Shows, LevelOf, RunNames, LexNames;
    PushShows(s, env);
    DeclareNames(params, ArgsOpened(s), env);
    var r := RunNames(params, ArgsOpened(s), true);
    if r.Some? {
      assert r.value.levels[..1] == s.levels;
      assert r.value.levels[..1][0] == r.value.levels[0];
    }
  }

  lemma {:induction false} ExternScopes(f: string, params: seq<string>, s: State, env: map<string, nat>)
    requires Outside(s) && Shows(s.levels, env)
    ensures DeclAgrees(Proc(f, params, None), s, env)
  {
    hide Shows, LevelOf, RunNames, LexNames, MethodEnded;
    ParamsScopes(params, s, env);
    var r, l := RunNames(params, ArgsOpened(s), true), LexNames(params, env, s.next, true, 2);
    if r.Some? {
      MethodEnds(s, env, r.value, l.value.env, f);
    }
  }

  /** After the closing brace of a method's body: its scope is still open, unless a nested block has left
      the flag set and the brace has already popped it. */
  lemma {:induction false} BodyClosed(b: Body, s: State, s1: State, s2: State)
    requires Outside(s) && |s1.levels| == 2 && s1.levels[0] == s.levels[0] && s1.levels[1].id == s.next && !s1.last
    requires Fresh(s2) && SameOuter(s1, s2) && s2.last == HasNest(b)
    ensures Closed(s2) == if HasNest(b) then s2.(levels := s.levels) else s2
    ensures s2.levels[0] == s.levels[0] && |s2.levels| == 2 && Top(s2) == s.next
    ensures Fresh(Closed(s2))
  {
    assert s2.levels[..1][0] == s2.levels[0] && s1.levels[..1][0] == s1.levels[0];
    assert s2.levels[..1] == s.levels;
  }

  /** From the opening brace of a method's body to the end of the method. */
  lemma {:induction false} BodyToEnd(f: string, b: Body, s: State, s1: State, env: map<string, nat>,
                                     env1: map<string, nat>)
    requires Outside(s) && Shows(s.levels, env) && ParamsOpen(s, s1, env1) && !s1.suppress && !s1.last
    ensures var r2, l2 := RunBody(b, s1), LexBody(b, env1, s.next, s.next + 1, 2);
            && (r2.None? <==> l2.None?)
            && (r2.Some? ==>
                  var r := MethodEnded(Closed(r2.value), f);
                  && |Closed(r2.value).levels| > 0
                  && (r.None? <==> NameClash(f, env, l2.value.env, HasNest(b)))
                  && (r.Some? ==>
                        && Outside(r.value) && Shows(r.value.levels, env[f := 0])
                        && r.value.uses == s.uses + l2.value.uses && r.value.next == l2.value.next
                        && r.value.levels[0].syms
                           == s.levels[0].syms + [Symbol(f, Some(RecordedScope(Some(b), s.next)))]))
  {
    hide Shows, LevelOf, MethodEnded, RunBody, LexBody, HasNest, Closed;
    BodyScopes(b, s1, env1);
    var r2 := RunBody(b, s1);
    if r2.Some? {
      var l2 := LexBody(b, env1, s.next, s.next + 1, 2);
      BodyClosed(b, s, s1, r2.value);
      MethodEnds(s, env, Closed(r2.value), if HasNest(b) then env else l2.value.env, f);
    }
  }

  lemma {:induction false} ProcScopes(f: string, params: seq<string>, b: Body, s: State, env: map<string, nat>)
    requires Outside(s) && Shows(s.levels, env)
    ensures DeclAgrees(Proc(f, params, Some(b)), s, env)
  {
    hide Shows, LevelOf, RunNames, LexNames, MethodEnded, RunBody, LexBody, HasNest, Closed, Outside;
    ParamsScopes(params, s, env);
    var r, l := RunNames(params, ArgsOpened(s), true), LexNames(params, env, s.next, true, 2);
    if r.Some? {
      BodyToEnd(f, b, s, Opened(r.value), env, l.value.env);
    }
  }

  /** Every declaration, whatever the flags were left at. */
  lemma {:induction false} DeclScopes(d: Decl, s: State, env: map<string, nat>)
    requires Outside(s) && Shows(s.levels, env)
    ensures DeclAgrees(d, s, env)
  {
    match d
    case Global(init, x) => GlobalScopes(init, x, s, env);
    case Proc(f, params, None) => ExternScopes(f, params, s, env);
    case Proc(f, params, Some(b)) => ProcScopes(f, params, b, s, env);
  }

  lemma {:induction false} DeclsScopes(ds: seq<Decl>, s: State, env: map<string, nat>)
    requires Outside(s) && Shows(s.levels, env)
    ensures var r, l := RunProgram(ds, s), LexProgram(ds, env, s.next);
            && (r.None? <==> l.None?)
            && (r.Some? ==> Outside(r.value) && r.value.uses == s.uses + l.value.uses && r.value.next == l.value.next)
    decreases |ds|
  {
    hide Shows, RunDecl, LexDecl;
    if ds != [] {
      DeclScopes(ds[0], s, env);
      if RunDecl(ds[0], s).Some? {
        var r1, l1 := RunDecl(ds[0], s).value, LexDecl(ds[0], env, s.next).value;
        DeclsScopes(ds[1..], r1, l1.env);
        var l2 := LexProgram(ds[1..], l1.env, l1.next);
        assert l2.Some? ==> (s.uses + l1.uses) + l2.value.uses == s.uses + (l1.uses + l2.value.uses);
      }
    }
  }

  /** The parser's stack of tables and its two flags implement lexical scoping: for every program, the
      same acceptance, the same scope for every identifier, and the global scope at the end. */
  lemma {:induction false} ParserScopesLexically(ds: seq<Decl>)
    ensures var r, l := RunProgram(ds, INIT), LexProgram(ds, map[], 1);
            && (r.None? <==> l.None?)
            && (r.Some? ==> |r.value.levels| == 1 && r.value.uses == l.value.uses)
  {
    hide RunProgram, LexProgram;
    forall x
      ensures LevelOf(INIT.levels, x) == None
    {
      assert INIT.levels[..0] == [];
    }
    DeclsScopes(ds, INIT, map[]);
  }

  /** The scope recorded for a method is its own exactly when its body has no nested block. */
  lemma {:induction false} RecordedExactly(f: string, params: seq<string>, body: Option<Body>, s: State,
      env: map<string, nat>)
    requires Outside(s) && Shows(s.levels, env) && RunDecl(Proc(f, params, body), s).Some?
    ensures var syms := RunDecl(Proc(f, params, body), s).value.levels[0].syms;
            && |syms| > 0 && syms[|syms| - 1].name == f
            && (syms[|syms| - 1].scope == Some(s.next) <==> !(body.Some? && HasNest(body.value)))
  {
    hide RunDecl, LexDecl, Shows;
    DeclScopes(Proc(f, params, body), s, env);
  }

  /** A method named like one of its own parameters or variables is an error exactly when its body has no
      nested block. */
  lemma {:induction false} OwnNameClash(f: string, params: seq<string>, b: Body, s: State, env: map<string, nat>)
    requires Outside(s) && Shows(s.levels, env) && f !in env
    requires LexNames(params, env, s.next, true, 2).Some?
    requires LexBody(b, LexNames(params, env, s.next, true, 2).value.env, s.next, s.next + 1, 2).Some?
    requires f in LexBody(b, LexNames(params, env, s.next, true, 2).value.env, s.next, s.next + 1, 2).value.env
    ensures RunDecl(Proc(f, params, Some(b)), s).None? <==> !HasNest(b)
  {
    hide RunDecl, LexBody, LexNames, Shows;
    DeclScopes(Proc(f, params, Some(b)), s, env);
  }

  // ----- the parser as it runs -----

  class Parser {
    var levels: seq<Scope>
    var next: nat
    var suppressNextBlockPush: bool
    var lastBlockPushed: bool
    var uses: seq<Use>

    ghost function Now(): State
      reads this
    {
      State(levels, next, suppressNextBlockPush, lastBlockPushed, uses)
    }

    constructor ()
      ensures Now() == INIT
    {
      levels, next, suppressNextBlockPush, lastBlockPushed, uses := [Scope(0, [])], 1, false, false, [];
    }

    method PushScope()
      modifies this`levels, this`next
      ensures Now() == Pushed(old(Now()))
    {
      levels := levels + [Scope(next, [])];
      next := next + 1;
    }

    method PopScope()
      modifies this`levels
      ensures Now() == Popped(old(Now()))
    {
      if |levels| > 1 {
        levels := levels[..|levels| - 1];
      }
    }

    method FindIn(syms: seq<Symbol>, x: string) returns (found: bool)
      ensures found <==> Names(syms, x)
    {
      var i := 0;
      while i < |syms|
        invariant 0 <= i <= |syms| && forall j :: 0 <= j < i ==> syms[j].name != x
      {
        if syms[i].name == x {
          return true;
        }
        i := i + 1;
      }
      found := false;
    }

    /** The innermost level that declares x, searching from the current scope outward. */
    method Find(x: string) returns (level: Option<nat>)
      ensures level == LevelOf(levels, x)
    {
      hide LevelOf;
      var i := |levels|;
      LevelsAbove(levels, x, i);
      while i > 0
        invariant 0 <= i <= |levels| && forall j :: i <= j < |levels| ==> !Names(levels[j].syms, x)
      {
        var found := FindIn(levels[i - 1].syms, x);
        if found {
          LevelsAbove(levels, x, i);
          return Some(i - 1);
        }
        i := i - 1;
      }
      LevelsAbove(levels, x, 0);
      level := None;
    }

    method AddId(x: string) returns (ok: bool)
      requires |levels| > 0
      modifies this`levels
      ensures ok <==> Added(old(Now()), x).Some?
      ensures Now() == if ok then Added(old(Now()), x).value else old(Now())
    {
      var top := |levels| - 1;
      var found := FindIn(levels[top].syms, x);
      if !found {
        levels := WithSymbol(levels, top, Symbol(x, None));
      }
      ok := !found;
    }

    method Identifier(x: string) returns (ok: bool)
      modifies this`uses
      ensures ok <==> Used(old(Now()), x).Some?
      ensures Now() == if ok then Used(old(Now()), x).value else old(Now())
    {
      var level := Find(x);
      ok := level.Some?;
      if ok {
        uses := uses + [Use(levels[level.value].id, |levels|)];
      }
    }

    method MethodArgs()
      modifies this`levels, this`next, this`suppressNextBlockPush
      ensures Now() == ArgsOpened(old(Now()))
    {
      PushScope();
      suppressNextBlockPush := true;
    }

    method OpenBlock()
      modifies this`levels, this`next, this`suppressNextBlockPush, this`lastBlockPushed
      ensures Now() == Opened(old(Now()))
    {
      if suppressNextBlockPush {
        lastBlockPushed := false;
        suppressNextBlockPush := false;
      } else {
        PushScope();
        lastBlockPushed := true;
      }
    }

    method CloseBlock()
      modifies this`levels
      ensures Now() == Closed(old(Now()))
    {
      if lastBlockPushed {
        PopScope();
      }
    }

    method EndMethod(f: string) returns (ok: bool)
      requires |levels| > 0
      modifies this`levels
      ensures ok <==> MethodEnded(old(Now()), f).Some?
      ensures Now() == if ok then MethodEnded(old(Now()), f).value else old(Now())
    {
      var level := Find(f);
      ok := level.None?;
      if ok {
        levels := WithSymbol(levels, 0, Symbol(f, Some(levels[|levels| - 1].id)));
        PopScope();
      }
    }

    /** The actions of a block's contents, in the order the grammar runs them. */
    method Block(b: Body) returns (ok: bool)
      requires |levels| > 0
      modifies this
      ensures ok <==> RunBody(b, old(Now())).Some?
      ensures ok ==> Now() == RunBody(b, old(Now())).value
      decreases b
    {
      hide Opened, Closed;
      match b
      case Done => ok := true;
      case Declare(x, rest) =>
        ok := AddId(x);
        if ok {
          ok := Block(rest);
        }
      case Mention(x, rest) =>
        ok := Identifier(x);
        if ok {
          ok := Block(rest);
        }
      case Nest(inner, rest) =>
        LevelsStay(Now());
        OpenBlock();
        ok := Block(inner);
        if ok {
          LevelsStay(Now());
          CloseBlock();
          ok := Block(rest);
        }
    }

    method Each(xs: seq<string>, declare: bool) returns (ok: bool)
      requires |levels| > 0
      modifies this
      ensures ok <==> RunNames(xs, old(Now()), declare).Some?
      ensures ok ==> Now() == RunNames(xs, old(Now()), declare).value
      decreases |xs|
    {
      if xs == [] {
        return true;
      }
      if declare {
        ok := AddId(xs[0]);
      } else {
        ok := Identifier(xs[0]);
      }
      if ok {
        ok := Each(xs[1..], declare);
      }
    }

    method Declaration(d: Decl) returns (ok: bool)
      requires |levels| > 0
      modifies this
      ensures ok <==> RunDecl(d, old(Now())).Some?
      ensures ok ==> Now() == RunDecl(d, old(Now())).value
    {
      hide Added, RunNames, RunBody, MethodEnded;
      match d
      case Global(init, x) =>
        ok := Each(init, false);
        if ok {
          ok := AddId(x);
        }
      case Proc(f, params, body) =>
        MethodArgs();
        ok := Each(params, true);
        if ok && body.Some? {
          OpenBlock();
          ok := Block(body.value);
          if ok {
            CloseBlock();
          }
        }
        if ok {
          ok := EndMethod(f);
        }
    }

    method Program(ds: seq<Decl>) returns (ok: bool)
      requires |levels| > 0
      modifies this
      ensures ok <==> RunProgram(ds, old(Now())).Some?
      ensures ok ==> Now() == RunProgram(ds, old(Now())).value
    {
      hide RunDecl;
      var i := 0;
      ghost var start := Now();
      assert ds[0..] == ds;
      while i < |ds|
        invariant 0 <= i <= |ds| && |levels| > 0
        invariant RunProgram(ds, start) == RunProgram(ds[i..], Now())
      {
        assert ds[i..][1..] == ds[i + 1..] && ds[i..][0] == ds[i];
        ok := Declaration(ds[i]);
        if !ok {
          return;
        }
        i := i + 1;
      }
      ok := true;
    }
  }

  lemma {:induction false} LevelsAbove(levels: seq<Scope>, x: string, i: nat)
    requires i <= |levels| && forall j :: i <= j < |levels| ==> !Names(levels[j].syms, x)
    ensures i > 0 && Names(levels[i - 1].syms, x) ==> LevelOf(levels, x) == Some(i - 1)
    ensures i == 0 ==> LevelOf(levels, x) == None
  {
    hide Names;
  }

  lemma {:induction false} LevelsStay(s: State)
    requires |s.levels| > 0
    ensures |Opened(s).levels| > 0 && |Closed(s).levels| > 0
  {
  }
}

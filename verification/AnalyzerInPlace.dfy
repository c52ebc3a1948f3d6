/** The analyzer as it runs: nodes of a mutable tree, evaluated bottom up, overwritten in place when they
    fold to a leaf or collapse to a block. */
module AnalyzerInPlace {
  import opened Words
  import opened Source
  import opened Analyzer

  function TypeOf(r: ExprCheck): Option<RetType> {
    match r
    case Typed(ty, _) => Some(ty)
    case BadExpr => None
  }

  function ListOf(es: seq<Expr>): (r: ExprList)
    ensures ListLength(r) == |es|
  {
    if es == [] then NoExpr else ExprCons(es[0], ListOf(es[1..]))
  }

  /** The arguments already checked, then the others. */
  function Glue(done: seq<Expr>, next: ExprList): ExprList {
    if done == [] then next else ExprCons(done[0], Glue(done[1..], next))
  }

  lemma {:induction false} GlueSnoc(done: seq<Expr>, e: Expr, next: ExprList)
    ensures Glue(done + [e], next) == Glue(done, ExprCons(e, next))
    decreases |done|
  {
    if done == [] {
      assert [e][1..] == [];
    } else {
      assert (done + [e])[1..] == done[1..] + [e];
      GlueSnoc(done[1..], e, next);
    }
  }

  lemma {:induction false} GlueAll(done: seq<Expr>)
    ensures Glue(done, NoExpr) == ListOf(done)
    decreases |done|
  {
    if done != [] {
      GlueAll(done[1..]);
    }
  }

  datatype Info =
    | LeafInfo(leaf: Expr)
    | BinaryInfo(op: BinOp, left: Node, right: Node)
    | UnaryInfo(uop: UnOp, arg: Node)
    | CallInfo(f: string, args: seq<Node>)

  /** An expression node. tree is the expression it stands for; repr holds its node objects. */
  class Node {
    var info: Info
    ghost var tree: Expr
    ghost const repr: set<object>

    ghost predicate Valid()
      reads this, repr
      decreases repr
    {
      && this in repr
      && match info
         case LeafInfo(leaf) => (leaf.IntLit? || leaf.BoolLit? || leaf.Id?) && tree == leaf
         case BinaryInfo(op, l, r) =>
           && Below(l) && Below(r) && l.repr !! r.repr && l.Valid() && r.Valid()
           && tree == Binary(op, l.tree, r.tree)
         case UnaryInfo(uop, a) => Below(a) && a.Valid() && tree == Unary(uop, a.tree)
         case CallInfo(f, args) =>
           && (forall i :: 0 <= i < |args| ==> Below(args[i]) && args[i].Valid())
           && (forall i, j :: 0 <= i < j < |args| ==> args[i].repr !! args[j].repr)
           && tree.CallE? && tree.f == f && IsList(tree.args, args)
    }

    ghost predicate Below(n: Node) {
      n in repr && n.repr <= repr && this !in n.repr
    }

    constructor OfLeaf(leaf: Expr)
      requires leaf.IntLit? || leaf.BoolLit? || leaf.Id?
      ensures Valid() && fresh(repr) && tree == leaf
    {
      info, tree, repr := LeafInfo(leaf), leaf, {this};
    }

    constructor OfBinary(op: BinOp, l: Node, r: Node)
      requires l.Valid() && r.Valid() && l.repr !! r.repr
      ensures Valid() && fresh(repr - l.repr - r.repr) && tree == Binary(op, l.tree, r.tree)
    {
      info, tree, repr := BinaryInfo(op, l, r), Binary(op, l.tree, r.tree), {this} + l.repr + r.repr;
    }

    constructor OfUnary(uop: UnOp, a: Node)
      requires a.Valid()
      ensures Valid() && fresh(repr - a.repr) && tree == Unary(uop, a.tree)
    {
      info, tree, repr := UnaryInfo(uop, a), Unary(uop, a.tree), {this} + a.repr;
    }

    constructor OfCall(f: string, args: seq<Node>)
      requires forall i :: 0 <= i < |args| ==> args[i].Valid()
      requires forall i, j :: 0 <= i < j < |args| ==> args[i].repr !! args[j].repr
      ensures Valid() && info == CallInfo(f, args) && tree == CallE(f, ListOf(Trees(args)))
      ensures fresh(repr - ExprObjects(args))
    {
      hide ListOf;
      info, tree, repr := CallInfo(f, args), CallE(f, ListOf(Trees(args))), {this} + ExprObjects(args);
      new;
      assert forall i :: 0 <= i < |args| ==> args[i] in args[i].repr;
    }

    /** Type-checks the tree and, with optimisation on, folds it in place: a binary node over two literals
        becomes a leaf. None: the error exit. */
    method Eval(ms: seq<Method>, opt: bool) returns (ty: Option<RetType>)
      requires Valid()
      modifies repr
      ensures ty == TypeOf(CheckExpr(ms, old(tree), opt))
      ensures ty.Some? ==> Valid() && tree == CheckExpr(ms, old(tree), opt).e
      decreases repr, 1
    {
      match info
      case LeafInfo(leaf) =>
        ty := Some(LeafType(leaf));
      case BinaryInfo(op, l, r) =>
        ty := EvalBinary(ms, opt, op, l, r);
      case UnaryInfo(uop, a) =>
        ty := a.Eval(ms, opt);
        if ty != Some(if uop == Minus then RInt else RBool) {
          return None;
        }
        tree := Unary(uop, a.tree);
      case CallInfo(f, args) =>
        ty := EvalCall(ms, opt, f, args);
    }

    method EvalBinary(ms: seq<Method>, opt: bool, op: BinOp, l: Node, r: Node) returns (ty: Option<RetType>)
      requires Valid() && info == BinaryInfo(op, l, r)
      modifies repr
      ensures ty == TypeOf(CheckExpr(ms, old(tree), opt))
      ensures ty.Some? ==> Valid() && tree == CheckExpr(ms, old(tree), opt).e
      decreases repr, 0
    {
      ty := None;
      var tl := l.Eval(ms, opt);
      if tl.None? {
        return;
      }
      var tr := r.Eval(ms, opt);
      if tr.None? {
        return;
      }
      ty := BinType(op, tl.value, tr.value);
      tree := Binary(op, l.tree, r.tree);
      if ty.Some? && opt && l.info.LeafInfo? && r.info.LeafInfo? && IsLiteral(l.info.leaf) && IsLiteral(r.info.leaf) {
        var lit := FoldBin(op, LiteralValue(l.info.leaf), LiteralValue(r.info.leaf));
        if lit.None? {
          return None;
        }
        info, tree := LeafInfo(lit.value), lit.value;
      }
    }

    method EvalCall(ms: seq<Method>, opt: bool, f: string, args: seq<Node>) returns (ty: Option<RetType>)
      requires Valid() && info == CallInfo(f, args)
      modifies repr
      ensures ty == TypeOf(CheckExpr(ms, old(tree), opt))
      ensures ty.Some? ==> Valid() && tree == CheckExpr(ms, old(tree), opt).e
      decreases repr, 0
    {
      hide CheckExpr, CheckArgs, ArgsFrom, ListOf, IsList;
      var m := Find(ms, f);
      ghost var es := Trees(args);
      ListIs(tree.args, args);
      CallChecked(ms, f, es, opt);
      if m.None? || |args| != |m.value.params| {
        return None;
      }
      ghost var done: seq<Expr> := [];
      var i := 0;
      while i < |args|
        invariant 0 <= i <= |args| && info == CallInfo(f, args)
        invariant forall j :: 0 <= j < |args| ==> args[j].Valid()
        invariant |done| == i && forall j :: 0 <= j < i ==> args[j].tree == done[j]
        invariant forall j :: i <= j < |args| ==> args[j].tree == es[j]
        invariant ArgsFrom(ms, es, m.value.params, opt, 0, []) == ArgsFrom(ms, es, m.value.params, opt, i, done)
      {
        ArgsNext(ms, es, m.value.params, opt, i, done);
        var t := args[i].Eval(ms, opt);
        if t.None? || t.value != RetOf(m.value.params[i].ty) {
          return None;
        }
        done := done + [args[i].tree];
        i := i + 1;
      }
      ArgsDone(ms, es, m.value.params, opt, done);
      tree := CallE(f, ListOf(done));
      ListMade(done, args);
      ty := Some(m.value.ret);
    }
  }

  ghost function ExprObjects(args: seq<Node>): (r: set<object>)
    ensures forall i :: 0 <= i < |args| ==> args[i].repr <= r
  {
    set n, o | n in args && o in n.repr :: o
  }

  ghost function Trees(args: seq<Node>): (r: seq<Expr>)
    reads args
    ensures |r| == |args| && forall i :: 0 <= i < |args| ==> r[i] == args[i].tree
  {
    seq(|args|, i requires 0 <= i < |args| reads args => args[i].tree)
  }

  ghost predicate IsList(es: ExprList, args: seq<Node>)
    reads args
  {
    es == ListOf(Trees(args))
  }

  lemma {:induction false} ListIs(es: ExprList, args: seq<Node>)
    requires IsList(es, args)
    ensures es == ListOf(Trees(args)) && ListLength(es) == |args|
  {
  }

  lemma {:induction false} ListMade(done: seq<Expr>, args: seq<Node>)
    requires |done| == |args| && forall j :: 0 <= j < |args| ==> args[j].tree == done[j]
    ensures IsList(ListOf(done), args)
  {
    assert Trees(args) == done;
  }

  function LeafType(leaf: Expr): RetType
    requires leaf.IntLit? || leaf.BoolLit? || leaf.Id?
  {
    match leaf
    case IntLit(_) => RInt
    case BoolLit(_) => RBool
    case Id(_, ty, _) => RetOf(ty)
  }

  /** The outcome for all arguments when the first i have become done. */
  function ArgsFrom(ms: seq<Method>, es: seq<Expr>, ps: seq<Param>, opt: bool, i: nat, done: seq<Expr>): ArgsCheck
    requires i <= |es| == |ps|
  {
    match CheckArgs(ms, ListOf(es[i..]), ps[i..], opt)
    case BadArgs => BadArgs
    case TypedArgs(next) => TypedArgs(Glue(done, next))
  }

  lemma {:induction false} CallChecked(ms: seq<Method>, f: string, es: seq<Expr>, opt: bool)
    ensures CheckExpr(ms, CallE(f, ListOf(es)), opt) ==
            match Find(ms, f)
            case None => BadExpr
            case Some(m) =>
              if |es| != |m.params| then BadExpr
              else match ArgsFrom(ms, es, m.params, opt, 0, [])
                case BadArgs => BadExpr
                case TypedArgs(es1) => Typed(m.ret, CallE(f, es1))
  {
    assert es[0..] == es;
    if Find(ms, f).Some? {
      assert Find(ms, f).value.params[0..] == Find(ms, f).value.params;
    }
  }

  lemma {:induction false} ArgsDone(ms: seq<Method>, es: seq<Expr>, ps: seq<Param>, opt: bool, done: seq<Expr>)
    requires |es| == |ps|
    ensures ArgsFrom(ms, es, ps, opt, |es|, done) == TypedArgs(ListOf(done))
  {
    GlueAll(done);
  }

  lemma {:induction false} ArgsNext(ms: seq<Method>, es: seq<Expr>, ps: seq<Param>, opt: bool, i: nat, done: seq<Expr>)
    requires i < |es| == |ps|
    ensures var r := CheckExpr(ms, es[i], opt);
            ArgsFrom(ms, es, ps, opt, i, done)
            == if r.BadExpr? || r.ty != RetOf(ps[i].ty) then BadArgs else ArgsFrom(ms, es, ps, opt, i + 1, done + [r.e])
  {
    assert es[i..][1..] == es[i + 1..] && ps[i..][1..] == ps[i + 1..];
    var r := CheckExpr(ms, es[i], opt);
    if r.Typed? && r.ty == RetOf(ps[i].ty) {
      var n := CheckArgs(ms, ListOf(es[i + 1..]), ps[i + 1..], opt);
      if n.TypedArgs? {
        GlueSnoc(done, r.e, n.es);
      }
    }
  }

  // ----- statements -----

  function StmtsOf(ss: seq<Stmt>): StmtList {
    if ss == [] then SNil else SCons(ss[0], StmtsOf(ss[1..]))
  }

  /** Blocks may be null, where the parser found nothing in the braces. */
  datatype StmtInfo =
    | AssignInfo(x: string, ty: Type, e: Node)
    | DeclInfo(x: string, ty: Type, init: Option<Node>)
    | CallStmtInfo(call: Node)
    | ReturnInfo(val: Option<Node>)
    | IfInfo(cond: Node, thn: BlockNode?, els: BlockNode?)
    | WhileInfo(cond: Node, body: BlockNode?)
    | BlockInfo(block: BlockNode?)

  /** A block: its statements, and what they stand for. */
  class BlockNode {
    var stmts: seq<StmtNode>
    ghost var trees: seq<Stmt>
    ghost const repr: set<object>

    ghost predicate Valid()
      reads this, repr
      decreases repr
    {
      && this in repr && |trees| == |stmts| > 0
      && (forall i :: 0 <= i < |stmts| ==>
            && stmts[i] in repr && stmts[i].repr <= repr && this !in stmts[i].repr
            && stmts[i].Valid() && stmts[i].tree == trees[i])
      && (forall i, j :: 0 <= i < j < |stmts| ==> stmts[i].repr !! stmts[j].repr)
    }

    static ghost function Footprint(ns: seq<StmtNode>): (r: set<object>)
      ensures forall n :: n in ns ==> n.repr <= r
    {
      set n, o | n in ns && o in n.repr :: o
    }

    constructor (stmts: seq<StmtNode>, ghost trees: seq<Stmt>)
      requires |stmts| > 0 && |trees| == |stmts|
      requires forall i :: 0 <= i < |stmts| ==> stmts[i].Valid() && stmts[i].tree == trees[i]
      requires forall i, j :: 0 <= i < j < |stmts| ==> stmts[i].repr !! stmts[j].repr
      ensures Valid() && this.stmts == stmts && this.trees == trees && fresh(repr - Footprint(stmts))
    {
      assert forall i :: 0 <= i < |stmts| ==> stmts[i] in stmts[i].repr;
      this.stmts, this.trees, repr := stmts, trees, {this} + Footprint(stmts);
      new;
      hide StmtNode.Valid;
    }

    /** One statement of the block. */
    method EvalAt(i: nat, ms: seq<Method>, ret: RetType, opt: bool) returns (ok: bool)
      requires Valid() && i < |stmts|
      modifies repr
      ensures ok <==> CheckStmt(ms, old(trees[i]), ret, opt).TypedStmt?
      ensures ok ==> Valid() && stmts == old(stmts)
      ensures ok ==> trees == old(trees)[i := CheckStmt(ms, old(trees[i]), ret, opt).s]
      decreases repr, 0
    {
      hide CheckStmt;
      ok := stmts[i].Eval(ms, ret, opt);
      trees := trees[i := stmts[i].tree];
    }

    /** The statements of a block, one after another. */
    method Eval(ms: seq<Method>, ret: RetType, opt: bool) returns (ok: bool)
      requires Valid()
      modifies repr
      ensures ok <==> CheckList(ms, StmtsOf(old(trees)), ret, opt).TypedList?
      ensures ok ==> Valid() && StmtsOf(trees) == CheckList(ms, StmtsOf(old(trees)), ret, opt).ss
      decreases repr, 1
    {
      ghost var ss := trees;
      var i := 0;
      ListStart(ms, ss, ret, opt);
      assert trees[..0] == [];
      while i < |stmts|
        invariant 0 <= i <= |stmts| && stmts == old(stmts) && Valid()
        invariant forall j :: i <= j < |stmts| ==> trees[j] == ss[j]
        invariant ListFrom(ms, ss, ret, opt, 0, []) == ListFrom(ms, ss, ret, opt, i, trees[..i])
      {
        hide CheckStmt, CheckList, ListFrom, StmtsOf;
        ListNext(ms, ss, ret, opt, i, trees[..i]);
        ghost var done := trees[..i];
        ok := EvalAt(i, ms, ret, opt);
        if !ok {
          return;
        }
        i := i + 1;
        assert trees[..i] == done + [trees[i - 1]];
      }
      ok := true;
      assert trees[..i] == trees && ss[i..] == [];
      GlueStmtsAll(trees);
    }
  }

  ghost function Stmts(b: BlockNode?): StmtList
    reads b
  {
    if b == null then SNil else StmtsOf(b.trees)
  }

  /** A null block has no objects. */
  ghost function BlockObjects(b: BlockNode?): set<object> {
    if b == null then {} else b.repr
  }

  class StmtNode {
    var info: StmtInfo
    ghost var tree: Stmt
    ghost const repr: set<object>

    ghost predicate Valid()
      reads this, repr
      decreases repr
    {
      && this in repr
      && match info
         case AssignInfo(x, ty, e) => BelowExpr(e) && e.Valid() && tree == Assign(x, ty, e.tree)
         case DeclInfo(x, ty, None) => tree == Decl(x, ty, None)
         case DeclInfo(x, ty, Some(e)) => BelowExpr(e) && e.Valid() && tree == Decl(x, ty, Some(e.tree))
         case CallStmtInfo(c) =>
           BelowExpr(c) && c.Valid() && c.info.CallInfo? && c.tree.CallE? && tree == CallS(c.tree.f, c.tree.args)
         case ReturnInfo(None) => tree == Return(None)
         case ReturnInfo(Some(e)) => BelowExpr(e) && e.Valid() && tree == Return(Some(e.tree))
         case IfInfo(c, thn, els) =>
           && BelowExpr(c) && c.Valid() && ValidBlock(thn) && ValidBlock(els)
           && (thn != null ==> c.repr !! thn.repr) && (els != null ==> c.repr !! els.repr)
           && (thn != null && els != null ==> thn.repr !! els.repr)
           && tree == If(c.tree, Stmts(thn), Stmts(els))
         case WhileInfo(c, body) =>
           && BelowExpr(c) && c.Valid() && ValidBlock(body) && (body != null ==> c.repr !! body.repr)
           && tree == While(c.tree, Stmts(body))
         case BlockInfo(b) => ValidBlock(b) && tree == Block(Stmts(b))
    }

    ghost predicate BelowExpr(n: Node) {
      n in repr && n.repr <= repr && this !in n.repr
    }

    ghost predicate ValidBlock(b: BlockNode?)
      requires this in repr
      reads repr
      decreases repr, 0
    {
      b != null ==> b in repr && b.repr <= repr && this !in b.repr && b.Valid()
    }

    constructor OfAssign(x: string, ty: Type, e: Node)
      requires e.Valid()
      ensures Valid() && fresh(repr - e.repr) && tree == Assign(x, ty, e.tree)
    {
      info, tree, repr := AssignInfo(x, ty, e), Assign(x, ty, e.tree), {this} + e.repr;
    }

    constructor OfDecl(x: string, ty: Type, init: Option<Node>)
      requires init.Some? ==> init.value.Valid()
      ensures Valid() && tree == Decl(x, ty, if init.None? then None else Some(init.value.tree))
      ensures fresh(if init.None? then repr else repr - init.value.repr)
    {
      info := DeclInfo(x, ty, init);
      tree := Decl(x, ty, if init.None? then None else Some(init.value.tree));
      repr := {this} + (if init.None? then {} else init.value.repr);
    }

    constructor OfCallStmt(call: Node)
      requires call.Valid() && call.info.CallInfo?
      ensures call.tree.CallE? && Valid() && fresh(repr - call.repr) && tree == CallS(call.tree.f, call.tree.args)
    {
      info, tree, repr := CallStmtInfo(call), CallS(call.tree.f, call.tree.args), {this} + call.repr;
    }

    constructor OfReturn(val: Option<Node>)
      requires val.Some? ==> val.value.Valid()
      ensures Valid() && tree == Return(if val.None? then None else Some(val.value.tree))
      ensures fresh(if val.None? then repr else repr - val.value.repr)
    {
      info := ReturnInfo(val);
      tree := Return(if val.None? then None else Some(val.value.tree));
      repr := {this} + (if val.None? then {} else val.value.repr);
    }

    constructor OfIf(c: Node, thn: BlockNode?, els: BlockNode?)
      requires c.Valid() && (thn != null ==> thn.Valid()) && (els != null ==> els.Valid())
      requires c.repr !! BlockObjects(thn) && c.repr !! BlockObjects(els) && BlockObjects(thn) !! BlockObjects(els)
      ensures Valid() && fresh(repr - c.repr - BlockObjects(thn) - BlockObjects(els))
      ensures tree == If(c.tree, Stmts(thn), Stmts(els))
    {
      info, tree := IfInfo(c, thn, els), If(c.tree, Stmts(thn), Stmts(els));
      repr := {this} + c.repr + BlockObjects(thn) + BlockObjects(els);
    }

    constructor OfWhile(c: Node, body: BlockNode?)
      requires c.Valid() && (body != null ==> body.Valid()) && c.repr !! BlockObjects(body)
      ensures Valid() && fresh(repr - c.repr - BlockObjects(body)) && tree == While(c.tree, Stmts(body))
    {
      info, tree, repr := WhileInfo(c, body), While(c.tree, Stmts(body)), {this} + c.repr + BlockObjects(body);
    }

    constructor OfBlock(block: BlockNode?)
      requires block != null ==> block.Valid()
      ensures Valid() && fresh(repr - BlockObjects(block)) && tree == Block(Stmts(block))
    {
      info, tree, repr := BlockInfo(block), Block(Stmts(block)), {this} + BlockObjects(block);
    }

    /** Type-checks the statement and, with optimisation on, rewrites it in place: a literal condition
        turns an if-statement into the block of its live branch, and a dead loop into an empty block. */
    method Eval(ms: seq<Method>, ret: RetType, opt: bool) returns (ok: bool)
      requires Valid()
      modifies repr
      ensures ok <==> CheckStmt(ms, old(tree), ret, opt).TypedStmt?
      ensures ok ==> Valid() && tree == CheckStmt(ms, old(tree), ret, opt).s
      decreases repr, 1
    {
      hide CheckExpr, CheckList, StmtsOf;
      match info
      case AssignInfo(x, ty, e) =>
        var te := e.Eval(ms, opt);
        ok := te == Some(RetOf(ty));
        tree := Assign(x, ty, e.tree);
      case DeclInfo(x, ty, init) =>
        ok := true;
        if init.Some? {
          var te := init.value.Eval(ms, opt);
          ok := te == Some(RetOf(ty)) || te == Some(RVoid);
          tree := Decl(x, ty, Some(init.value.tree));
        }
      case CallStmtInfo(_) => ok := EvalCallStmt(ms, ret, opt);
      case ReturnInfo(val) =>
        ok := ret == RVoid;
        if val.Some? {
          var te := val.value.Eval(ms, opt);
          ok := te == Some(ret);
          tree := Return(Some(val.value.tree));
        }
      case IfInfo(_, _, _) => ok := EvalIf(ms, ret, opt);
      case WhileInfo(_, _) => ok := EvalWhile(ms, ret, opt);
      case BlockInfo(b) =>
        NothingToCheck(ms, ret, opt);
        ok := true;
        if b != null {
          ok := b.Eval(ms, ret, opt);
          tree := Block(Stmts(b));
        }
    }

    method EvalCallStmt(ms: seq<Method>, ret: RetType, opt: bool) returns (ok: bool)
      requires Valid() && info.CallStmtInfo?
      modifies repr
      ensures ok <==> CheckStmt(ms, old(tree), ret, opt).TypedStmt?
      ensures ok ==> Valid() && tree == CheckStmt(ms, old(tree), ret, opt).s
      decreases repr, 0
    {
      var t := info.call.Eval(ms, opt);
      ok := t.Some?;
      if ok {
        tree := CallS(info.call.tree.f, info.call.tree.args);
      }
    }

    /** A block that must not be null. */
    method EvalBody(b: BlockNode?, ms: seq<Method>, ret: RetType, opt: bool) returns (ok: bool)
      requires this in repr && ValidBlock(b)
      modifies if b == null then {} else b.repr
      ensures ok <==> CheckBody(ms, old(Stmts(b)), ret, opt).TypedList?
      ensures ok ==> ValidBlock(b) && Stmts(b) == CheckBody(ms, old(Stmts(b)), ret, opt).ss
      decreases repr, 0, 0
    {
      hide CheckList;
      ok := b != null;
      if ok {
        ok := b.Eval(ms, ret, opt);
      }
    }

    /** The statement becomes the block b. */
    method CollapseTo(b: BlockNode?, ms: seq<Method>, ret: RetType, opt: bool) returns (ok: bool)
      requires this in repr && ValidBlock(b)
      modifies repr
      ensures ok <==> CheckBody(ms, old(Stmts(b)), ret, opt).TypedList?
      ensures ok ==> Valid() && tree == Block(CheckBody(ms, old(Stmts(b)), ret, opt).ss)
      decreases repr, 0, 1
    {
      hide CheckBody;
      ok := EvalBody(b, ms, ret, opt);
      info, tree := BlockInfo(b), Block(Stmts(b));
    }

    /** The parts of an if-statement, its condition already evaluated. */
    ghost predicate Branches(c: Node, thn: BlockNode?, els: BlockNode?)
      requires this in repr
      reads this, repr
      decreases repr, 1
    {
      && info == IfInfo(c, thn, els) && BelowExpr(c) && c.Valid() && ValidBlock(thn) && ValidBlock(els)
      && (thn != null ==> c.repr !! thn.repr) && (els != null ==> c.repr !! els.repr)
      && (thn != null && els != null ==> thn.repr !! els.repr)
    }

    method EvalBranches(c: Node, thn: BlockNode?, els: BlockNode?, ms: seq<Method>, ret: RetType, opt: bool)
      returns (ok: bool)
      requires this in repr && Branches(c, thn, els)
      modifies repr
      ensures ok <==> (CheckBody(ms, old(Stmts(thn)), ret, opt).TypedList?
                       && CheckList(ms, old(Stmts(els)), ret, opt).TypedList?)
      ensures ok ==> Valid()
      ensures ok ==> tree == If(old(c.tree), CheckBody(ms, old(Stmts(thn)), ret, opt).ss,
                                CheckList(ms, old(Stmts(els)), ret, opt).ss)
      decreases repr, 0, 1
    {
      hide CheckList, CheckBody, StmtsOf;
      NothingToCheck(ms, ret, opt);
      assert els != null ==> els.Valid();
      ok := EvalBody(thn, ms, ret, opt);
      assert els != null ==> els.Valid();
      if ok && els != null {
        ok := els.Eval(ms, ret, opt);
      }
      tree := If(c.tree, Stmts(thn), Stmts(els));
    }

    method EvalIf(ms: seq<Method>, ret: RetType, opt: bool) returns (ok: bool)
      requires Valid() && info.IfInfo?
      modifies repr
      ensures ok <==> CheckStmt(ms, old(tree), ret, opt).TypedStmt?
      ensures ok ==> Valid() && tree == CheckStmt(ms, old(tree), ret, opt).s
      decreases repr, 0, 2
    {
      hide CheckExpr, CheckList, CheckBody, StmtsOf;
      var c, thn, els := info.cond, info.thn, info.els;
      NullIffEmpty(els);
      assert (thn != null ==> thn.Valid()) && (els != null ==> els.Valid());
      var t := c.Eval(ms, opt);
      if t != Some(RBool) {
        return false;
      }
      assert (thn != null ==> thn.Valid()) && (els != null ==> els.Valid());
      if opt && c.info.LeafInfo? && LeafBits(c.info.leaf) == Some(1) {
        ok := CollapseTo(thn, ms, ret, opt);
      } else if opt && c.info.LeafInfo? && els != null {
        ok := CollapseTo(els, ms, ret, opt);
      } else {
        ok := EvalBranches(c, thn, els, ms, ret, opt);
      }
    }

    method EvalWhile(ms: seq<Method>, ret: RetType, opt: bool) returns (ok: bool)
      requires Valid() && info.WhileInfo?
      modifies repr
      ensures ok <==> CheckStmt(ms, old(tree), ret, opt).TypedStmt?
      ensures ok ==> Valid() && tree == CheckStmt(ms, old(tree), ret, opt).s
      decreases repr, 0
    {
      hide CheckExpr, CheckList, StmtsOf;
      var c, body := info.cond, info.body;
      assert body != null ==> body.Valid();
      var t := c.Eval(ms, opt);
      if t != Some(RBool) {
        return false;
      }
      assert body != null ==> body.Valid();
      ok := EvalBody(body, ms, ret, opt);
      tree := While(c.tree, Stmts(body));
      if ok && opt && c.info.LeafInfo? && LeafBits(c.info.leaf) == Some(0) {
        info, tree := BlockInfo(null), Block(SNil);
      }
    }
  }

  /** A method: its header, and its body, which is null for an extern method and where the parser found
      nothing in the braces. */
  class MethodNode {
    const header: Method
    const body: BlockNode?
    ghost var tree: Method
    ghost const repr: set<object>

    ghost predicate Valid()
      reads this, repr
      decreases repr
    {
      && this in repr
      && (body != null ==> body in repr && body.repr <= repr && this !in body.repr && body.Valid())
      && tree == header.(body := Stmts(body))
    }

    constructor (header: Method, body: BlockNode?)
      requires body != null ==> body.Valid()
      ensures Valid() && fresh(repr - BlockObjects(body)) && tree == header.(body := Stmts(body))
    {
      this.header, this.body, tree := header, body, header.(body := Stmts(body));
      repr := {this} + BlockObjects(body);
    }

    method Eval(ms: seq<Method>, opt: bool) returns (ok: bool)
      requires Valid()
      modifies repr
      ensures ok <==> CheckMethod(ms, old(tree), opt).Some?
      ensures ok ==> Valid() && tree == CheckMethod(ms, old(tree), opt).value
    {
      hide CheckList, StmtsOf;
      if header.isExtern {
        return true;
      }
      NullIffEmpty(body);
      ok := body != null;
      if ok {
        ok := body.Eval(ms, header.ret, opt);
        tree := header.(body := Stmts(body));
      }
    }
  }

  /** The program: its methods in order. */
  class ProgramNode {
    const methods: seq<MethodNode>
    ghost var trees: seq<Method>
    ghost const repr: set<object>

    ghost predicate Valid()
      reads this, repr
    {
      && this in repr && |trees| == |methods|
      && (forall i :: 0 <= i < |methods| ==>
            && methods[i] in repr && methods[i].repr <= repr && this !in methods[i].repr
            && methods[i].Valid() && methods[i].tree == trees[i])
      && (forall i, j :: 0 <= i < j < |methods| ==> methods[i].repr !! methods[j].repr)
    }

    /** One method of the program. */
    method EvalAt(i: nat, ms: seq<Method>, opt: bool) returns (ok: bool)
      requires Valid() && i < |methods|
      modifies repr
      ensures ok <==> CheckMethod(ms, old(trees[i]), opt).Some?
      ensures ok ==> Valid()
      ensures ok ==> trees == old(trees)[i := CheckMethod(ms, old(trees[i]), opt).value]
    {
      hide CheckMethod;
      ok := methods[i].Eval(ms, opt);
      trees := trees[i := methods[i].tree];
    }

    /** The whole analysis in place: every method in turn, then the check for main. The table of methods is
        the one the parser filled in. */
    method Eval(ms: seq<Method>, ext: Trace -> Option<Word>, opt: bool) returns (ok: bool)
      requires Valid() && ms == trees
      modifies repr
      ensures ok <==> Analyze(Program(ms, ext), opt).Some?
      ensures ok ==> Valid() && Analyze(Program(ms, ext), opt) == Some(Program(trees, ext))
    {
      hide CheckMethod, CheckMethods, MethodsFrom, Find;
      var i := 0;
      MethodsStart(ms, ms, opt);
      assert trees[..0] == [];
      while i < |methods|
        invariant 0 <= i <= |methods| && Valid()
        invariant forall j :: i <= j < |methods| ==> trees[j] == ms[j]
        invariant MethodsFrom(ms, ms, opt, 0, []) == MethodsFrom(ms, ms, opt, i, trees[..i])
      {
        MethodsNext(ms, ms, opt, i, trees[..i]);
        ghost var done := trees[..i];
        ok := EvalAt(i, ms, opt);
        if !ok {
          return;
        }
        i := i + 1;
        assert trees[..i] == done + [trees[i - 1]];
      }
      MethodsDone(ms, ms, opt, trees);
      assert trees[..i] == trees;
      ok := Find(ms, "main").Some?;
    }
  }

  /** The statements already checked, then the others. */
  function GlueStmts(done: seq<Stmt>, next: StmtList): StmtList {
    if done == [] then next else SCons(done[0], GlueStmts(done[1..], next))
  }

  lemma {:induction false} GlueStmtsSnoc(done: seq<Stmt>, s: Stmt, next: StmtList)
    ensures GlueStmts(done + [s], next) == GlueStmts(done, SCons(s, next))
    decreases |done|
  {
    if done == [] {
      assert [s][1..] == [];
    } else {
      assert (done + [s])[1..] == done[1..] + [s];
      GlueStmtsSnoc(done[1..], s, next);
    }
  }

  lemma {:induction false} GlueStmtsAll(done: seq<Stmt>)
    ensures GlueStmts(done, SNil) == StmtsOf(done)
    decreases |done|
  {
    if done != [] {
      GlueStmtsAll(done[1..]);
    }
  }

  /** The outcome for all statements when the first i have become done. */
  function ListFrom(ms: seq<Method>, ss: seq<Stmt>, ret: RetType, opt: bool, i: nat, done: seq<Stmt>): ListCheck
    requires i <= |ss|
  {
    match CheckList(ms, StmtsOf(ss[i..]), ret, opt)
    case BadList => BadList
    case TypedList(next) => TypedList(GlueStmts(done, next))
  }

  lemma {:induction false} ListNext(ms: seq<Method>, ss: seq<Stmt>, ret: RetType, opt: bool, i: nat, done: seq<Stmt>)
    requires i < |ss|
    ensures var r := CheckStmt(ms, ss[i], ret, opt);
            ListFrom(ms, ss, ret, opt, i, done)
            == if r.BadStmt? then BadList else ListFrom(ms, ss, ret, opt, i + 1, done + [r.s])
  {
    assert ss[i..][1..] == ss[i + 1..];
    var r := CheckStmt(ms, ss[i], ret, opt);
    if r.TypedStmt? {
      var n := CheckList(ms, StmtsOf(ss[i + 1..]), ret, opt);
      if n.TypedList? {
        GlueStmtsSnoc(done, r.s, n.ss);
      }
    }
  }

  lemma {:induction false} ListStart(ms: seq<Method>, ss: seq<Stmt>, ret: RetType, opt: bool)
    ensures ListFrom(ms, ss, ret, opt, 0, []) == CheckList(ms, StmtsOf(ss), ret, opt)
  {
    assert ss[0..] == ss;
  }

  lemma {:induction false} NothingToCheck(ms: seq<Method>, ret: RetType, opt: bool)
    ensures CheckList(ms, SNil, ret, opt) == TypedList(SNil) && StmtsOf([]) == SNil
  {
  }

  lemma {:induction false} NullIffEmpty(b: BlockNode?)
    requires b != null ==> b.Valid()
    ensures Stmts(b) == SNil <==> b == null
  {
  }

  /** The outcome for all methods when the first i have become done. */
  function MethodsFrom(ms: seq<Method>, todo: seq<Method>, opt: bool, i: nat, done: seq<Method>): Option<seq<Method>>
    requires i <= |todo|
  {
    match CheckMethods(ms, todo[i..], opt)
    case None => None
    case Some(rest) => Some(done + rest)
  }

  lemma {:induction false} MethodsNext(ms: seq<Method>, todo: seq<Method>, opt: bool, i: nat, done: seq<Method>)
    requires i < |todo|
    ensures MethodsFrom(ms, todo, opt, i, done) ==
            match CheckMethod(ms, todo[i], opt)
            case None => None
            case Some(m) => MethodsFrom(ms, todo, opt, i + 1, done + [m])
  {
    hide CheckMethod;
    assert todo[i..][1..] == todo[i + 1..];
    var m := CheckMethod(ms, todo[i], opt);
    if m.Some? && CheckMethods(ms, todo[i + 1..], opt).Some? {
      var rest := CheckMethods(ms, todo[i + 1..], opt).value;
      assert done + ([m.value] + rest) == (done + [m.value]) + rest;
    }
  }

  lemma {:induction false} MethodsStart(ms: seq<Method>, todo: seq<Method>, opt: bool)
    ensures MethodsFrom(ms, todo, opt, 0, []) == CheckMethods(ms, todo, opt)
  {
    assert todo[0..] == todo;
    var r := CheckMethods(ms, todo, opt);
    if r.Some? {
      assert [] + r.value == r.value;
    }
  }

  lemma {:induction false} MethodsDone(ms: seq<Method>, todo: seq<Method>, opt: bool, done: seq<Method>)
    ensures MethodsFrom(ms, todo, opt, |todo|, done) == Some(done)
  {
    assert done + [] == done;
  }
}

/** The translator as the compiler runs it: it draws temporaries and labels from two counters and
    answers through the operand it was given. */
module Translator {
  import opened Common
  import opened Syntax
  import opened Layout
  import opened Ir
  import opened Translate

  /** An operand that the translation of an expression may redirect to a variable, a constant or
      a memory cell. */
  class Place {
    var op: Operand
    var ty: Option<Type>

    constructor (op: Operand)
      ensures this.op == op && ty == None
    {
      this.op, ty := op, None;
    }

    /** Takes over what is known of a variable or a constant. */
    method Copy(op: Operand, ty: Option<Type>)
      modifies this
      ensures this.op == op && this.ty == ty
    {
      this.op, this.ty := op, ty;
    }
  }

  class Translator {
    var tempNum: nat
    var labelNum: nat

    constructor ()
      ensures tempNum == 0 && labelNum == 0
    {
      tempNum, labelNum := 0, 0;
    }

    method NewTemp() returns (place: Place)
      modifies `tempNum
      ensures fresh(place) && place.op == Temp(old(tempNum)) && place.ty == None && tempNum == old(tempNum) + 1
    {
      place := new Place(Temp(tempNum));
      tempNum := tempNum + 1;
    }

    method NewLabel() returns (no: nat)
      modifies `labelNum
      ensures no == old(labelNum) && labelNum == old(labelNum) + 1
    {
      no := labelNum;
      labelNum := labelNum + 1;
    }

    method Actual(src: Operand) returns (code: Code, actual: Operand)
      modifies `tempNum
      ensures (code, actual, tempNum) == Fetch(src, old(tempNum))
    {
      code, actual := [], src;
      if IsMemOp(src) {
        var tmp := NewTemp();
        code, actual := [ASSIGN(tmp.op, src)], tmp.op;
      }
    }

    method ArithmeticCode(op: ArithOp, dst: Operand, src1: Operand, src2: Operand) returns (code: Code)
      modifies `tempNum
      ensures (code, tempNum) == Arithmetic(op, dst, src1, src2, old(tempNum))
    {
      var actual1, code2, actual2;
      code, actual1 := Actual(src1);
      code2, actual2 := Actual(src2);
      code := code + code2 + [ARITH(op, dst, actual1, actual2)];
    }

    /** The answer of a translation agrees with its specification. */
    ghost predicate Answers(o: ExpCode, code: Code, place: Place)
      reads this, place
    {
      o == ExpCode(code, place.op, place.ty, tempNum, labelNum)
    }

    ghost predicate Yields(o: StmtCode, code: Code)
      reads this
    {
      o == StmtCode(code, tempNum, labelNum)
    }

    /** The cell at `addr`. */
    method Access(place: Place, addr: Operand, ty: Option<Type>) returns (code: Code)
      modifies `tempNum, place
      ensures forall before :: Answers(Deref(before, addr, ty, old(tempNum), labelNum), before + code, place)
    {
      if addr.GetAddr? {
        var tmp := NewTemp();
        code := [ASSIGN(tmp.op, addr)];
        place.op, place.ty := GetVal(tmp.op), ty;
      } else {
        code := [];
        place.op, place.ty := GetVal(addr), ty;
        assert forall before: Code :: before + code == before;
      }
    }

    method TranslateExp(g: Gamma, e: Exp, place: Place) returns (code: Code)
      requires place.op.Temp? && place.ty == None
      modifies this, place
      ensures Answers(TransExp(g, e, old(place.op).no, old(tempNum), old(labelNum)), code, place)
      decreases e, if IsLogical(e) then 5 else 2
    {
      match e
      case Assign(left, right) =>
        var a := NewTemp();
        var b := NewTemp();
        code := TranslateExp(g, left, a);
        var code2 := TranslateExp(g, right, b);
        code := code + code2 + [ASSIGN(a.op, b.op), ASSIGN(place.op, a.op)];
      case Arith(op, left, right) =>
        var a := NewTemp();
        var b := NewTemp();
        code := TranslateExp(g, left, a);
        var code2 := TranslateExp(g, right, b);
        var code3 := ArithmeticCode(op, place.op, a.op, b.op);
        code := code + code2 + code3;
      case Paren(arg) =>
        code := TranslateExp(g, arg, place);
      case Neg(arg) =>
        var a := NewTemp();
        code := TranslateExp(g, arg, a);
        var code2 := ArithmeticCode(Minus, place.op, Const(0), a.op);
        code := code + code2;
      case Call(f, args) =>
        code := [];
        if args.Arg? {
          code := TranslateArgs(g, args);
        }
        code := code + [CALL(place.op, f)];
      case Read =>
        code := [READ(place.op)];
      case Write(arg) =>
        var a := NewTemp();
        code := TranslateExp(g, arg, a);
        code := code + [WRITE(a.op)];
      case Index(_, _) =>
        code := TranslateIndex(g, e, place);
      case Dot(_, _) =>
        code := TranslateDot(g, e, place);
      case Id(x) =>
        place.Copy(Variable(x), if x in g then Some(g[x]) else None);
        code := [NULL];
      case Lit(n) =>
        place.Copy(Const(n), None);
        code := [NULL];
      case _ =>
        code := TranslateTruth(g, e, place);
    }

    /** A condition used as a value. */
    method TranslateTruth(g: Gamma, e: Exp, place: Place) returns (code: Code)
      requires IsLogical(e) && place.op.Temp? && place.ty == None
      modifies this
      ensures Answers(TransExp(g, e, place.op.no, old(tempNum), old(labelNum)), code, place)
      decreases e, 4
    {
      var label1 := NewLabel();
      var label2 := NewLabel();
      var code2 := TranslateCondition(g, e, label1, label2);
      code := [ASSIGN(place.op, Const(0))] + code2 + [LABEL(label1), ASSIGN(place.op, Const(1)), LABEL(label2)];
    }

    method TranslateIndex(g: Gamma, e: Exp, place: Place) returns (code: Code)
      requires e.Index? && place.op.Temp? && place.ty == None
      modifies this, place
      ensures Answers(TransExp(g, e, old(place.op).no, old(tempNum), old(labelNum)), code, place)
      decreases e, 1
    {
      var tmp := NewTemp();
      var index := NewTemp();
      var offset := NewTemp();
      code := TranslateExp(g, e.base, tmp);
      ghost var a := ExpCode(code, tmp.op, tmp.ty, tempNum, labelNum);
      var code2 := TranslateExp(g, e.index, index);
      ghost var i := ExpCode(code2, index.op, index.ty, tempNum, labelNum);
      var code3 := Element(place, tmp, index, offset.op, a, i);
      code := code + code2 + code3;
    }

    /** The element that `index` selects from the array that `base` stands for. */
    method Element(place: Place, base: Place, index: Place, offset: Operand, ghost a: ExpCode, ghost i: ExpCode)
      returns (code: Code)
      requires a.op == base.op && a.ty == base.ty && offset.Temp? && place != base && place != index
      requires i.op == index.op && i.t == tempNum && i.l == labelNum
      modifies `tempNum, place
      ensures Answers(ElementCode(a, i, offset.no), a.code + i.code + code, place)
    {
      var addr, elem := AddressOf(base.op, base.ty), ElemType(base.ty);
      if IsZeroWord(index.op) {
        code := Access(place, addr, Some(elem));
      } else {
        var cell := NewTemp();
        code := ArithmeticCode(Star, offset, index.op, Const(SizeOf(elem)));
        var code4 := ArithmeticCode(Plus, cell.op, addr, offset);
        assert a.code + i.code + code + code4 == a.code + i.code + (code + code4);
        code := code + code4;
        place.op, place.ty := GetVal(cell.op), Some(elem);
      }
    }

    /** Walks the members up to the one called `name`, adding up the sizes of those before it. */
    method FindMember(ty: Option<Type>, name: string) returns (offset: nat, part: Option<Type>)
      ensures (offset, part) == MemberOf(ty, name)
    {
      offset, part := 0, None;
      if ty.Some? && Pointee(ty.value).Struct? {
        var ptr := Pointee(ty.value).members;
        while ptr.Field? && ptr.name != name
          invariant var all, left := FindField(Pointee(ty.value).members, name), FindField(ptr, name);
            if all.None? then left.None? && SizeOfFields(Pointee(ty.value).members) == offset + SizeOfFields(ptr)
            else left.Some? && all.value == (offset + left.value.0, left.value.1)
          decreases ptr
        {
          offset, ptr := offset + SizeOf(ptr.ftype), ptr.rest;
        }
        if ptr.Field? {
          part := Some(ptr.ftype);
        }
      }
    }

    method TranslateDot(g: Gamma, e: Exp, place: Place) returns (code: Code)
      requires e.Dot? && place.op.Temp? && place.ty == None
      modifies this, place
      ensures Answers(TransExp(g, e, old(place.op).no, old(tempNum), old(labelNum)), code, place)
      decreases e, 1
    {
      var tmp := NewTemp();
      code := TranslateExp(g, e.base, tmp);
      var offset, part := FindMember(tmp.ty, e.member);
      var addr, code2 := AddressOf(tmp.op, tmp.ty), [];
      if offset != 0 {
        var cell := NewTemp();
        code2 := ArithmeticCode(Plus, cell.op, addr, Const(offset));
        place.op, place.ty := GetVal(cell.op), part;
      } else {
        code2 := Access(place, addr, part);
      }
      code := code + code2;
    }

    method TranslateCondition(g: Gamma, e: Exp, yes: nat, no: nat) returns (code: Code)
      modifies this
      ensures Yields(TransCondition(g, e, yes, no, old(tempNum), old(labelNum)), code)
      decreases e, 3
    {
      match e
      case Not(arg) =>
        code := TranslateCondition(g, arg, no, yes);
      case Rel(op, left, right) =>
        var a := NewTemp();
        var b := NewTemp();
        code := TranslateExp(g, left, a);
        var code2 := TranslateExp(g, right, b);
        code := code + code2 + [IF_GOTO(op, a.op, b.op, yes), GOTO(no)];
      case And(left, right) =>
        var here := NewLabel();
        code := TranslateCondition(g, left, here, no);
        var code2 := TranslateCondition(g, right, yes, no);
        code := code + [LABEL(here)] + code2;
      case Or(left, right) =>
        var here := NewLabel();
        code := TranslateCondition(g, left, yes, here);
        var code2 := TranslateCondition(g, right, yes, no);
        code := code + [LABEL(here)] + code2;
      case _ =>
        var a := NewTemp();
        code := TranslateExp(g, e, a);
        code := code + [IF_GOTO(Ne, a.op, Const(0), yes), GOTO(no)];
    }

    method TranslateArgs(g: Gamma, args: Args) returns (code: Code)
      requires args.Arg?
      modifies this
      ensures Yields(TransArgs(g, args, old(tempNum), old(labelNum)), code)
      decreases args
    {
      var a := NewTemp();
      code := TranslateExp(g, args.first, a);
      if args.rest.Arg? {
        var code2 := TranslateArgs(g, args.rest);
        code := code + code2;
      }
      code := code + [ARG(HandleAddress(a.op, a.ty))];
    }

    method TranslateDecs(g: Gamma, decs: Decs) returns (code: Code)
      modifies this
      ensures Yields(TransDecs(g, decs, old(tempNum), old(labelNum)), code)
      decreases decs
    {
      match decs
      case NoDec =>
        code := [NULL];
      case Dec(x, ty, init, rest) =>
        code := [if ty.Int? then NULL else DEC(x, SizeOf(ty))];
        if init.Some? {
          var a := NewTemp();
          var code3 := TranslateExp(g, init.value, a);
          code := code + code3 + [ASSIGN(Variable(x), a.op)];
        }
        var code2 := TranslateDecs(g, rest);
        code := code + code2;
    }

    method TranslateStmts(g: Gamma, body: Stmts) returns (code: Code)
      modifies this
      ensures Yields(TransStmts(g, body, old(tempNum), old(labelNum)), code)
      decreases body
    {
      match body
      case NoStmt =>
        code := [NULL];
      case Seq(first, rest) =>
        code := TranslateStmt(g, first);
        var code2 := TranslateStmts(g, rest);
        code := code + code2;
    }

    method TranslateStmt(g: Gamma, st: Stmt) returns (code: Code)
      modifies this
      ensures Yields(TransStmt(g, st, old(tempNum), old(labelNum)), code)
      decreases st
    {
      hide TransExp, TransCondition, TransDecs, TransStmts;
      match st
      case ExpStmt(e) =>
        var a := NewTemp();
        code := TranslateExp(g, e, a);
      case Block(decs, body) =>
        code := TranslateDecs(g, decs);
        var code2 := TranslateStmts(g, body);
        code := code + code2;
      case Return(e) =>
        var a := NewTemp();
        code := TranslateExp(g, e, a);
        code := code + [RETURN(a.op)];
      case While(cond, body) =>
        var label1 := NewLabel();
        var label2 := NewLabel();
        var label3 := NewLabel();
        var code2 := TranslateCondition(g, cond, label2, label3);
        var code4 := TranslateStmt(g, body);
        code := [LABEL(label1)] + code2 + [LABEL(label2)] + code4 + [GOTO(label1), LABEL(label3)];
      case If(cond, thn) =>
        var label1 := NewLabel();
        var label2 := NewLabel();
        code := TranslateCondition(g, cond, label1, label2);
        var code3 := TranslateStmt(g, thn);
        code := code + [LABEL(label1)] + code3 + [LABEL(label2)];
      case IfElse(cond, thn, els) =>
        var label1 := NewLabel();
        var label2 := NewLabel();
        var label3 := NewLabel();
        code := TranslateCondition(g, cond, label1, label2);
        var code3 := TranslateStmt(g, thn);
        var code6 := TranslateStmt(g, els);
        code := code + [LABEL(label1)] + code3 + [GOTO(label3), LABEL(label2)] + code6 + [LABEL(label3)];
    }

    method TranslateParams(params: seq<string>) returns (code: Code)
      requires params != []
      ensures code == TransParams(params)
    {
      code := [PARAM(params[0])];
      if |params| > 1 {
        var code2 := TranslateParams(params[1..]);
        code := code + code2;
      }
    }

    method TranslateFunction(fn: Function) returns (code: Code)
      modifies this
      ensures Yields(TransFunction(fn, old(tempNum), old(labelNum)), code)
    {
      code := [FUNC(fn.name)];
      if fn.params != [] {
        var code2 := TranslateParams(fn.params);
        code := code + code2;
      }
      var code3 := TranslateDecs(fn.vars, fn.decs);
      var code4 := TranslateStmts(fn.vars, fn.body);
      code := code + (code3 + code4);
    }

    method TranslateProgram(p: Program) returns (code: Code)
      modifies this
      ensures Yields(TransProgram(p, old(tempNum), old(labelNum)), code)
      decreases |p|
    {
      code := [NULL];
      if p != [] {
        if p[0].Definition? {
          code := TranslateFunction(p[0].fn);
        }
        var code2 := TranslateProgram(p[1..]);
        code := code + code2;
      }
    }
  }
}

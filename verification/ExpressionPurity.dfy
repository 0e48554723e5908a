/** Which expressions a module may evaluate without an observable effect, judged from their syntax. */
module ExpressionPurity {
  import opened Options

  datatype UnaryOp = TypeOf | Void | Not | Minus | Plus | BitNot | Delete

  datatype BinaryOp =
    | LooseEq | LooseNotEq | StrictEq | StrictNotEq | Less | LessEq | Greater | GreaterEq
    | Or | And | Nullish | In | InstanceOf
    | Add | Sub | Mul | Div | Mod | Exp | ShiftLeft | ShiftRight | UnsignedShiftRight | BitAnd | BitOr | BitXor

  datatype Primitive = Undefined | Null | Boolean(b: bool) | Number(code: int) | Text(s: string)

  /** `Opaque` is everything whose conversion may run code or throw: objects, functions, symbols. */
  datatype Value = Big(n: int) | Plain(p: Primitive) | Opaque(id: nat)

  /** A BigInt literal has the text the parser keeps and the number it denotes. */
  datatype Expr =
    | BigLiteral(text: string, magnitude: nat)
    | Literal(p: Primitive)
    | RegexLiteral(id: nat)
    | Ident(name: string)
    | Template(parts: Exprs)
    | Unary(uop: UnaryOp, arg: Expr)
    | Binary(bop: BinaryOp, left: Expr, right: Expr)
    | Cond(test: Expr, cons: Expr, alt: Expr)
    | Sequence(exprs: Exprs)
    | Paren(inner: Expr)

  datatype Exprs = Nil | Cons(head: Expr, tail: Exprs)

  // ---- the judgements ----

  datatype Kind = BigInt | NonBigInt | Mixed

  function Merge(left: Kind, right: Kind): Kind {
    if left == right then left else Mixed
  }

  function Loose(op: BinaryOp): bool {
    op in {LooseEq, LooseNotEq, Less, LessEq, Greater, GreaterEq}
  }

  function Strict(op: BinaryOp): bool {
    op == StrictEq || op == StrictNotEq
  }

  function Logical(op: BinaryOp): bool {
    op == Or || op == And || op == Nullish
  }

  function KindOf(e: Expr): Option<Kind> {
    match e
    case BigLiteral(_, _) => Some(BigInt)
    case Literal(_) => Some(NonBigInt)
    case RegexLiteral(_) => None
    case Ident(_) => None
    case Template(parts) => if AllKnown(parts) then Some(NonBigInt) else None
    case Unary(op, arg) =>
      (match op
       case TypeOf => Some(NonBigInt)
       case Void => Some(NonBigInt)
       case Not => Some(NonBigInt)
       case Minus => KindOf(arg)
       case BitNot => KindOf(arg)
       case Plus => if KindOf(arg) == Some(NonBigInt) then Some(NonBigInt) else None
       case Delete => None)
    case Binary(op, left, right) =>
      if Loose(op) || Strict(op) then Some(NonBigInt)
      else if Logical(op) then MergeKnown(KindOf(left), KindOf(right))
      else if op == In || op == InstanceOf then None
      else ResultKind(op, KindOf(left), KindOf(right), right)
    case Cond(_, cons, alt) => MergeKnown(KindOf(cons), KindOf(alt))
    case Sequence(exprs) => LastKind(exprs)
    case Paren(inner) => KindOf(inner)
  }

  function MergeKnown(left: Option<Kind>, right: Option<Kind>): Option<Kind> {
    if left.Some? && right.Some? then Some(Merge(left.value, right.value)) else None
  }

  function AllKnown(exprs: Exprs): bool {
    exprs.Cons? ==> KindOf(exprs.head).Some? && AllKnown(exprs.tail)
  }

  function LastKind(exprs: Exprs): Option<Kind> {
    match exprs
    case Nil => None
    case Cons(head, tail) => if tail.Nil? then KindOf(head) else LastKind(tail)
  }

  /** The text of the literal an expression is, through parentheses. */
  function AsBigLiteral(e: Expr): Option<string> {
    match e
    case BigLiteral(text, _) => Some(text)
    case Paren(inner) => AsBigLiteral(inner)
    case _ => None
  }

  function ResultKind(op: BinaryOp, left: Option<Kind>, right: Option<Kind>, divisor: Expr): Option<Kind> {
    if left.None? || right.None? then None
    else if Loose(op) then Some(NonBigInt)
    else if left.value == Mixed || right.value == Mixed || (left.value == BigInt) != (right.value == BigInt) then None
    else if left.value == BigInt then
      match op
      case Div => if AsBigLiteral(divisor).Some? && AsBigLiteral(divisor).value != "0" then Some(BigInt) else None
      case Mod => None
      case Exp => if AsBigLiteral(divisor).Some? then Some(BigInt) else None
      case UnsignedShiftRight => None
      case _ => Some(BigInt)
    else Some(NonBigInt)
  }

  predicate IsPure(e: Expr) {
    match e
    case BigLiteral(_, _) => true
    case Literal(_) => true
    case RegexLiteral(_) => true
    case Ident(_) => true
    case Template(parts) => AllPure(parts)
    case Unary(op, arg) =>
      (match op
       case TypeOf => IsPure(arg)
       case Void => IsPure(arg)
       case Not => IsPure(arg)
       case Minus => KindOf(arg).Some? && IsPure(arg)
       case Plus => KindOf(arg).Some? && IsPure(arg)
       case BitNot => KindOf(arg).Some? && IsPure(arg)
       case Delete => false)
    case Binary(op, left, right) =>
      if Strict(op) || Logical(op) then IsPure(left) && IsPure(right)
      else if op == In || op == InstanceOf then false
      else ResultKind(op, KindOf(left), KindOf(right), right).Some? && IsPure(left) && IsPure(right)
    case Cond(test, cons, alt) => IsPure(test) && IsPure(cons) && IsPure(alt)
    case Sequence(exprs) => AllPure(exprs)
    case Paren(inner) => IsPure(inner)
  }

  predicate AllPure(exprs: Exprs) {
    exprs.Cons? ==> IsPure(exprs.head) && AllPure(exprs.tail)
  }

  // ---- what is refused, and why: the rules listed one by one ----

  function WithoutParens(e: Expr): Expr {
    if e.Paren? then WithoutParens(e.inner) else e
  }

  /** BigInt operators that are only allowed with a literal on the right, or not at all. */
  predicate BigRule(op: BinaryOp, right: Expr) {
    match op
    case Div => WithoutParens(right).BigLiteral? && WithoutParens(right).text != "0"
    case Exp => WithoutParens(right).BigLiteral?
    case Mod => false
    case UnsignedShiftRight => false
    case _ => true
  }

  /** Operators that combine two numbers, or two BigInts, into one. */
  predicate Arithmetic(op: BinaryOp) {
    op in {Add, Sub, Mul, Div, Mod, Exp, ShiftLeft, ShiftRight, UnsignedShiftRight, BitAnd, BitOr, BitXor}
  }

  /** What an expression is sure to give, if anything. */
  predicate IsBig(e: Expr) {
    match e
    case BigLiteral(_, _) => true
    case Unary(op, arg) => (op == Minus || op == BitNot) && IsBig(arg)
    case Binary(op, left, right) => (Logical(op) || (Arithmetic(op) && BigRule(op, right))) && IsBig(left) && IsBig(right)
    case Cond(_, cons, alt) => IsBig(cons) && IsBig(alt)
    case Sequence(exprs) => LastIsBig(exprs)
    case Paren(inner) => IsBig(inner)
    case _ => false
  }

  predicate LastIsBig(exprs: Exprs) {
    exprs.Cons? && if exprs.tail.Nil? then IsBig(exprs.head) else LastIsBig(exprs.tail)
  }

  predicate IsNotBig(e: Expr)
    decreases e, 0
  {
    match e
    case Literal(_) => true
    case Template(parts) => AllSure(parts)
    case Unary(op, arg) =>
      op == TypeOf || op == Void || op == Not || ((op == Minus || op == Plus || op == BitNot) && IsNotBig(arg))
    case Binary(op, left, right) =>
      || op in {LooseEq, LooseNotEq, StrictEq, StrictNotEq, Less, LessEq, Greater, GreaterEq}
      || ((op in {Or, And, Nullish} || Arithmetic(op)) && IsNotBig(left) && IsNotBig(right))
    case Cond(_, cons, alt) => IsNotBig(cons) && IsNotBig(alt)
    case Sequence(exprs) => LastIsNotBig(exprs)
    case Paren(inner) => IsNotBig(inner)
    case _ => false
  }

  predicate LastIsNotBig(exprs: Exprs)
    decreases exprs, 0
  {
    exprs.Cons? && if exprs.tail.Nil? then IsNotBig(exprs.head) else LastIsNotBig(exprs.tail)
  }

  /** Sure to give a primitive, be it a BigInt or not. */
  predicate IsSure(e: Expr)
    decreases e, 1
  {
    || IsBig(e) || IsNotBig(e)
    || match e
       case Unary(op, arg) => (op == Minus || op == BitNot) && IsSure(arg)
       case Binary(op, left, right) => op in {Or, And, Nullish} && IsSure(left) && IsSure(right)
       case Cond(_, cons, alt) => IsSure(cons) && IsSure(alt)
       case Sequence(exprs) => LastIsSure(exprs)
       case Paren(inner) => IsSure(inner)
       case _ => false
  }

  predicate LastIsSure(exprs: Exprs)
    decreases exprs, 1
  {
    exprs.Cons? && if exprs.tail.Nil? then IsSure(exprs.head) else LastIsSure(exprs.tail)
  }

  predicate AllSure(exprs: Exprs)
    decreases exprs, 2
  {
    exprs.Cons? ==> IsSure(exprs.head) && AllSure(exprs.tail)
  }

  /** An operator that is refused where it stands, whatever its operands contain. */
  predicate Refused(e: Expr) {
    match e
    case Unary(op, arg) => op == Delete || ((op == Minus || op == Plus || op == BitNot) && !IsSure(arg))
    case Binary(op, left, right) =>
      || op == In || op == InstanceOf
      || (op in {LooseEq, LooseNotEq, Less, LessEq, Greater, GreaterEq} && !(IsSure(left) && IsSure(right)))
      || (Arithmetic(op) && !(IsNotBig(left) && IsNotBig(right)) && !(IsBig(left) && IsBig(right) && BigRule(op, right)))
    case _ => false
  }

  /** The expression itself, or one inside it. */
  predicate Inside(part: Expr, e: Expr) {
    || part == e
    || match e
       case Template(parts) => InsideOne(part, parts)
       case Unary(_, arg) => Inside(part, arg)
       case Binary(_, left, right) => Inside(part, left) || Inside(part, right)
       case Cond(test, cons, alt) => Inside(part, test) || Inside(part, cons) || Inside(part, alt)
       case Sequence(exprs) => InsideOne(part, exprs)
       case Paren(inner) => Inside(part, inner)
       case _ => false
  }

  predicate InsideOne(part: Expr, exprs: Exprs) {
    exprs.Cons? && (Inside(part, exprs.head) || InsideOne(part, exprs.tail))
  }

  lemma {:induction false} LiteralThroughParens(e: Expr)
    ensures AsBigLiteral(e) == if WithoutParens(e).BigLiteral? then Some(WithoutParens(e).text) else None
  {
    if e.Paren? { LiteralThroughParens(e.inner); }
  }

  lemma {:induction false} NotBoth(e: Expr)
    ensures !(IsBig(e) && IsNotBig(e))
  {
    match e
    case Unary(_, arg) => NotBoth(arg);
    case Binary(_, left, _) => NotBoth(left);
    case Cond(_, cons, _) => NotBoth(cons);
    case Sequence(exprs) => LastNotBoth(exprs);
    case Paren(inner) => NotBoth(inner);
    case _ =>
  }

  lemma {:induction false} LastNotBoth(exprs: Exprs)
    ensures !(LastIsBig(exprs) && LastIsNotBig(exprs))
  {
    if exprs.Cons? {
      NotBoth(exprs.head);
      LastNotBoth(exprs.tail);
    }
  }

  lemma ResultKindSays(op: BinaryOp, left: Option<Kind>, right: Option<Kind>, divisor: Expr)
    requires Arithmetic(op)
    ensures var result := ResultKind(op, left, right, divisor);
            && (result == Some(BigInt) <==> left == Some(BigInt) && right == Some(BigInt) && BigRule(op, divisor))
            && (result == Some(NonBigInt) <==> left == Some(NonBigInt) && right == Some(NonBigInt))
            && result != Some(Mixed)
  {
    LiteralThroughParens(divisor);
  }

  /** A kind is judged exactly where the rules make one sure. */
  lemma {:induction false} KindOfIff(e: Expr)
    ensures KindOf(e) == Some(BigInt) <==> IsBig(e)
    ensures KindOf(e) == Some(NonBigInt) <==> IsNotBig(e)
    ensures KindOf(e).Some? <==> IsSure(e)
    decreases e
  {
    NotBoth(e);
    match e
    case Template(parts) => AllKnownIff(parts);
    case Unary(_, arg) => KindOfIff(arg);
    case Binary(op, left, right) =>
      KindOfIff(left);
      KindOfIff(right);
      if Arithmetic(op) { ResultKindSays(op, KindOf(left), KindOf(right), right); }
    case Cond(_, cons, alt) =>
      KindOfIff(cons);
      KindOfIff(alt);
    case Sequence(exprs) => LastKindIff(exprs);
    case Paren(inner) => KindOfIff(inner);
    case _ =>
  }

  lemma {:induction false} AllKnownIff(exprs: Exprs)
    ensures AllKnown(exprs) <==> AllSure(exprs)
    decreases exprs
  {
    if exprs.Cons? {
      KindOfIff(exprs.head);
      AllKnownIff(exprs.tail);
    }
  }

  lemma {:induction false} LastKindIff(exprs: Exprs)
    ensures LastKind(exprs) == Some(BigInt) <==> LastIsBig(exprs)
    ensures LastKind(exprs) == Some(NonBigInt) <==> LastIsNotBig(exprs)
    ensures LastKind(exprs).Some? <==> LastIsSure(exprs)
    decreases exprs
  {
    if exprs.Cons? {
      KindOfIff(exprs.head);
      LastKindIff(exprs.tail);
    }
  }

  /** An expression is judged pure if and only if nothing inside it is refused. */
  lemma {:induction false} PureIff(e: Expr)
    ensures IsPure(e) <==> forall part | Inside(part, e) :: !Refused(part)
    decreases e
  {
    assert Inside(e, e);
    match e
    case Template(parts) => AllPureIff(parts);
    case Unary(op, arg) =>
      UnaryRefused(op, arg);
      PureIff(arg);
    case Binary(op, left, right) =>
      BinaryRefused(op, left, right);
      PureIff(left);
      PureIff(right);
    case Cond(test, cons, alt) =>
      PureIff(test);
      PureIff(cons);
      PureIff(alt);
    case Sequence(exprs) => AllPureIff(exprs);
    case Paren(inner) => PureIff(inner);
    case _ =>
  }

  /** What is asked of an operator beside its operands. */
  lemma UnaryRefused(op: UnaryOp, arg: Expr)
    ensures IsPure(Unary(op, arg)) <==> IsPure(arg) && !Refused(Unary(op, arg))
  {
    KindOfIff(arg);
  }

  lemma BinaryRefused(op: BinaryOp, left: Expr, right: Expr)
    ensures IsPure(Binary(op, left, right)) <==> IsPure(left) && IsPure(right) && !Refused(Binary(op, left, right))
  {
    if Loose(op) || Arithmetic(op) { ResultKindIff(op, left, right); }
  }

  lemma ResultKindIff(op: BinaryOp, left: Expr, right: Expr)
    requires Loose(op) || Arithmetic(op)
    ensures ResultKind(op, KindOf(left), KindOf(right), right).Some? <==> !Refused(Binary(op, left, right))
  {
    KindOfIff(left);
    KindOfIff(right);
    if Arithmetic(op) { ResultKindSays(op, KindOf(left), KindOf(right), right); }
  }

  lemma {:induction false} AllPureIff(exprs: Exprs)
    ensures AllPure(exprs) <==> forall part | InsideOne(part, exprs) :: !Refused(part)
    decreases exprs
  {
    if exprs.Cons? {
      PureIff(exprs.head);
      AllPureIff(exprs.tail);
    }
  }

  // ---- evaluation (ECMA-262, sections 6.1.6.2, 13.5 and 13.15.3) ----

  /** A name may have a value, may not be declared at all, or may be declared but not initialised yet. */
  datatype Binding = Bound(value: Value) | Unresolvable | Uninitialized

  /** The identifiers in scope, and what the language computes where only the kind of a result matters. */
  datatype Host = Host(
    binding: string -> Binding,
    truthy: Primitive -> bool,
    text: Value -> string,
    numeric: (UnaryOp, Primitive) -> int,
    arithmetic: (BinaryOp, Primitive, Primitive) -> Primitive,
    compare: (BinaryOp, Value, Value) -> bool,
    bitwise: (BinaryOp, int, int) -> int)

  /** `Fails` when evaluation throws, or converts an opaque value and so may run code. */
  datatype Outcome = Done(value: Value) | Fails

  function Truthy(h: Host, v: Value): bool {
    match v
    case Big(n) => n != 0
    case Plain(p) => h.truthy(p)
    case Opaque(_) => true
  }

  function Power(base: int, exponent: nat): (r: int)
    ensures base > 0 ==> r > 0
  {
    if exponent == 0 then 1 else base * Power(base, exponent - 1)
  }

  /** BigInt division rounds toward zero. */
  function Truncated(n: int, d: int): int
    requires d != 0
  {
    if n >= 0 then n / d else -((-n) / d)
  }

  /** A BigInt shift: right shifts round down. */
  function Shifted(n: int, count: int): int {
    if count >= 0 then n * Power(2, count) else n / Power(2, -count)
  }

  function BigBinary(h: Host, op: BinaryOp, left: int, right: int): Outcome {
    match op
    case Add => Done(Big(left + right))
    case Sub => Done(Big(left - right))
    case Mul => Done(Big(left * right))
    case Div => if right == 0 then Fails else Done(Big(Truncated(left, right)))
    case Mod => if right == 0 then Fails else Done(Big(left - right * Truncated(left, right)))
    case Exp => if right < 0 then Fails else Done(Big(Power(left, right)))
    case ShiftLeft => Done(Big(Shifted(left, right)))
    case ShiftRight => Done(Big(Shifted(left, -right)))
    case UnsignedShiftRight => Fails
    case _ => Done(Big(h.bitwise(op, left, right)))
  }

  predicate Concatenates(op: BinaryOp, left: Value, right: Value) {
    op == Add && ((left.Plain? && left.p.Text?) || (right.Plain? && right.p.Text?))
  }

  /** Operators that evaluate both operands first. */
  function ApplyBinary(h: Host, op: BinaryOp, left: Value, right: Value): Outcome {
    if Strict(op) then Done(Plain(Boolean(h.compare(op, left, right))))
    else if op == In || op == InstanceOf || left.Opaque? || right.Opaque? then Fails
    else if Loose(op) then Done(Plain(Boolean(h.compare(op, left, right))))
    else if Concatenates(op, left, right) then Done(Plain(Text(h.text(left) + h.text(right))))
    else match (left, right)
         case (Big(m), Big(n)) => BigBinary(h, op, m, n)
         case (Plain(p), Plain(q)) => Done(Plain(h.arithmetic(op, p, q)))
         case _ => Fails
  }

  function ApplyUnary(h: Host, op: UnaryOp, v: Value): Outcome {
    match op
    case TypeOf => Done(Plain(Text(h.text(v))))
    case Void => Done(Plain(Undefined))
    case Not => Done(Plain(Boolean(!Truthy(h, v))))
    case Minus =>
      (match v case Big(n) => Done(Big(-n)) case Plain(p) => Done(Plain(Number(h.numeric(op, p)))) case Opaque(_) => Fails)
    case BitNot =>
      (match v case Big(n) => Done(Big(-n - 1)) case Plain(p) => Done(Plain(Number(h.numeric(op, p)))) case Opaque(_) => Fails)
    case Plus =>
      (match v case Big(_) => Fails case Plain(p) => Done(Plain(Number(h.numeric(op, p)))) case Opaque(_) => Fails)
    case Delete => Fails
  }

  predicate TakesRight(h: Host, op: BinaryOp, left: Value)
    requires Logical(op)
  {
    match op
    case Or => !Truthy(h, left)
    case And => Truthy(h, left)
    case _ => left == Plain(Undefined) || left == Plain(Null)
  }

  /** `typeof` alone may be applied to a name that is not declared. */
  predicate NamesUnresolvable(h: Host, e: Expr) {
    match e
    case Ident(name) => h.binding(name).Unresolvable?
    case Paren(inner) => NamesUnresolvable(h, inner)
    case _ => false
  }

  function Eval(h: Host, e: Expr): Outcome {
    match e
    case BigLiteral(_, magnitude) => Done(Big(magnitude))
    case Literal(p) => Done(Plain(p))
    case RegexLiteral(id) => Done(Opaque(id))
    case Ident(name) => if h.binding(name).Bound? then Done(h.binding(name).value) else Fails
    case Template(parts) => EvalTemplate(h, parts, "")
    case Unary(op, arg) =>
      if op == TypeOf && NamesUnresolvable(h, arg) then Done(Plain(Text("undefined")))
      else
        var v := Eval(h, arg);
        if v.Fails? then Fails else ApplyUnary(h, op, v.value)
    case Binary(op, left, right) =>
      var l := Eval(h, left);
      if l.Fails? then Fails
      else if Logical(op) then (if TakesRight(h, op, l.value) then Eval(h, right) else l)
      else
        var r := Eval(h, right);
        if r.Fails? then Fails else ApplyBinary(h, op, l.value, r.value)
    case Cond(test, cons, alt) =>
      var t := Eval(h, test);
      if t.Fails? then Fails else if Truthy(h, t.value) then Eval(h, cons) else Eval(h, alt)
    case Sequence(exprs) => EvalSequence(h, exprs, Plain(Undefined))
    case Paren(inner) => Eval(h, inner)
  }

  function EvalTemplate(h: Host, parts: Exprs, built: string): Outcome {
    match parts
    case Nil => Done(Plain(Text(built)))
    case Cons(head, tail) =>
      var v := Eval(h, head);
      if v.Fails? || v.value.Opaque? then Fails else EvalTemplate(h, tail, built + h.text(v.value))
  }

  function EvalSequence(h: Host, exprs: Exprs, last: Value): Outcome {
    match exprs
    case Nil => Done(last)
    case Cons(head, tail) =>
      var v := Eval(h, head);
      if v.Fails? then Fails else EvalSequence(h, tail, v.value)
  }

  // ---- the kind judgement is sound ----

  predicate HasKind(v: Value, kind: Kind) {
    match kind
    case BigInt => v.Big?
    case NonBigInt => v.Plain?
    case Mixed => !v.Opaque?
  }

  lemma {:induction false} LiteralValue(h: Host, e: Expr)
    requires AsBigLiteral(e).Some?
    ensures Eval(h, e).Done? && Eval(h, e).value.Big? && Eval(h, e).value.n >= 0
    decreases e
  {
    if e.Paren? {
      LiteralValue(h, e.inner);
    }
  }

  /** On values of the judged kinds an operator the judgement accepts succeeds, with the judged kind. */
  lemma AcceptedOperands(h: Host, op: BinaryOp, lk: Kind, rk: Kind, divisor: Expr, l: Value, r: Value)
    requires !Strict(op) && !Logical(op) && op != In && op != InstanceOf
    requires ResultKind(op, Some(lk), Some(rk), divisor).Some?
    requires HasKind(l, lk) && HasKind(r, rk)
    requires AsBigLiteral(divisor).Some? ==> r.Big? && r.n >= 0
    requires !(op == Div && r == Big(0))
    ensures ApplyBinary(h, op, l, r).Done?
    ensures HasKind(ApplyBinary(h, op, l, r).value, ResultKind(op, Some(lk), Some(rk), divisor).value)
  {
    if !Loose(op) && lk == BigInt {
      AcceptedBigOperands(h, op, divisor, l.n, r.n);
    }
  }

  lemma AcceptedBigOperands(h: Host, op: BinaryOp, divisor: Expr, l: int, r: int)
    requires ResultKind(op, Some(BigInt), Some(BigInt), divisor).Some?
    requires AsBigLiteral(divisor).Some? ==> r >= 0
    requires !(op == Div && r == 0)
    ensures Loose(op) || (BigBinary(h, op, l, r).Done? && BigBinary(h, op, l, r).value.Big?)
  {
  }

  /** A division that gives a value was not by zero. */
  lemma NotDividedByZero(h: Host, op: BinaryOp, left: Expr, right: Expr)
    requires !Logical(op) && !Strict(op) && Eval(h, Binary(op, left, right)).Done?
    requires ResultKind(op, KindOf(left), KindOf(right), right).Some?
    requires HasKind(Eval(h, left).value, KindOf(left).value) && HasKind(Eval(h, right).value, KindOf(right).value)
    ensures !(op == Div && Eval(h, right).value == Big(0))
  {
  }

  lemma {:induction false} KindSound(h: Host, e: Expr)
    requires KindOf(e).Some? && Eval(h, e).Done?
    ensures HasKind(Eval(h, e).value, KindOf(e).value)
    decreases e
  {
    match e
    case Template(parts) => TemplateIsText(h, parts, "");
    case Unary(op, arg) =>
      if op in {Minus, BitNot, Plus} { KindSound(h, arg); }
    case Binary(op, left, right) =>
      if !Loose(op) && !Strict(op) {
        KindSound(h, left);
        if !Logical(op) {
          KindSound(h, right);
          if AsBigLiteral(right).Some? { LiteralValue(h, right); }
          NotDividedByZero(h, op, left, right);
          AcceptedOperands(h, op, KindOf(left).value, KindOf(right).value, right, Eval(h, left).value, Eval(h, right).value);
        } else if TakesRight(h, op, Eval(h, left).value) {
          KindSound(h, right);
        }
      }
    case Cond(test, cons, alt) =>
      if Truthy(h, Eval(h, test).value) { KindSound(h, cons); } else { KindSound(h, alt); }
    case Sequence(exprs) => LastKindSound(h, exprs, Plain(Undefined));
    case Paren(inner) => KindSound(h, inner);
    case _ =>
  }

  lemma {:induction false} TemplateIsText(h: Host, parts: Exprs, built: string)
    requires EvalTemplate(h, parts, built).Done?
    ensures EvalTemplate(h, parts, built).value.Plain?
    decreases parts
  {
    if parts.Cons? {
      TemplateIsText(h, parts.tail, built + h.text(Eval(h, parts.head).value));
    }
  }

  lemma {:induction false} LastKindSound(h: Host, exprs: Exprs, last: Value)
    requires LastKind(exprs).Some? && EvalSequence(h, exprs, last).Done?
    ensures HasKind(EvalSequence(h, exprs, last).value, LastKind(exprs).value)
    decreases exprs
  {
    if exprs.tail.Nil? {
      KindSound(h, exprs.head);
    } else {
      LastKindSound(h, exprs.tail, Eval(h, exprs.head).value);
    }
  }

  // ---- when a pure expression fails after all ----

  /**
   * Evaluation reaches a name without a value, a unary plus whose operand is a BigInt, a template
   * substitution whose value is opaque, or a division by a zero whose text is not "0": the places
   * that the purity judgement does not look at.
   */
  predicate Trips(h: Host, e: Expr) {
    match e
    case Ident(name) => !h.binding(name).Bound?
    case Template(parts) => PartTrips(h, parts)
    case Unary(op, arg) =>
      && !(op == TypeOf && NamesUnresolvable(h, arg))
      && (Trips(h, arg) || (op == Plus && Eval(h, arg).Done? && Eval(h, arg).value.Big?))
    case Binary(op, left, right) =>
      || Trips(h, left)
      || (&& Eval(h, left).Done? && (Logical(op) ==> TakesRight(h, op, Eval(h, left).value))
          && (Trips(h, right) || (op == Div && Eval(h, left).value.Big? && Eval(h, right) == Done(Big(0)))))
    case Cond(test, cons, alt) =>
      || Trips(h, test)
      || (Eval(h, test).Done? && Trips(h, if Truthy(h, Eval(h, test).value) then cons else alt))
    case Sequence(exprs) => ElementTrips(h, exprs)
    case Paren(inner) => Trips(h, inner)
    case _ => false
  }

  predicate PartTrips(h: Host, parts: Exprs) {
    parts.Cons? &&
    (|| Trips(h, parts.head)
     || (Eval(h, parts.head).Done? && (Eval(h, parts.head).value.Opaque? || PartTrips(h, parts.tail))))
  }

  predicate ElementTrips(h: Host, exprs: Exprs) {
    exprs.Cons? && (Trips(h, exprs.head) || (Eval(h, exprs.head).Done? && ElementTrips(h, exprs.tail)))
  }

  lemma SafeOperands(h: Host, op: BinaryOp, left: Expr, right: Expr)
    requires !Strict(op) && !Logical(op) && op != In && op != InstanceOf
    requires ResultKind(op, KindOf(left), KindOf(right), right).Some?
    requires Eval(h, left).Done? && Eval(h, right).Done?
    requires !(op == Div && Eval(h, right).value == Big(0))
    ensures ApplyBinary(h, op, Eval(h, left).value, Eval(h, right).value).Done?
  {
    KindSound(h, left);
    KindSound(h, right);
    if AsBigLiteral(right).Some? { LiteralValue(h, right); }
    AcceptedOperands(h, op, KindOf(left).value, KindOf(right).value, right, Eval(h, left).value, Eval(h, right).value);
  }

  lemma {:induction false} PureFailsIff(h: Host, e: Expr)
    requires IsPure(e)
    ensures Eval(h, e).Fails? <==> Trips(h, e)
    decreases e
  {
    match e
    case Template(parts) => PartsFailIff(h, parts, "");
    case Unary(op, arg) =>
      PureFailsIff(h, arg);
      if op in {Minus, BitNot, Plus} && Eval(h, arg).Done? { KindSound(h, arg); }
    case Binary(op, left, right) =>
      PureFailsIff(h, left);
      PureFailsIff(h, right);
      if !Strict(op) && !Logical(op) && Eval(h, left).Done? && Eval(h, right).Done? {
        KindSound(h, left);
        KindSound(h, right);
        if !(op == Div && Eval(h, right).value == Big(0)) { SafeOperands(h, op, left, right); }
      }
    case Cond(test, cons, alt) =>
      PureFailsIff(h, test);
      PureFailsIff(h, cons);
      PureFailsIff(h, alt);
    case Sequence(exprs) => ElementsFailIff(h, exprs, Plain(Undefined));
    case Paren(inner) => PureFailsIff(h, inner);
    case _ =>
  }

  lemma {:induction false} PartsFailIff(h: Host, parts: Exprs, built: string)
    requires AllPure(parts)
    ensures EvalTemplate(h, parts, built).Fails? <==> PartTrips(h, parts)
    decreases parts
  {
    if parts.Cons? {
      PureFailsIff(h, parts.head);
      if Eval(h, parts.head).Done? {
        PartsFailIff(h, parts.tail, built + h.text(Eval(h, parts.head).value));
      }
    }
  }

  lemma {:induction false} ElementsFailIff(h: Host, exprs: Exprs, last: Value)
    requires AllPure(exprs)
    ensures EvalSequence(h, exprs, last).Fails? <==> ElementTrips(h, exprs)
    decreases exprs
  {
    if exprs.Cons? {
      PureFailsIff(h, exprs.head);
      if Eval(h, exprs.head).Done? {
        ElementsFailIff(h, exprs.tail, Eval(h, exprs.head).value);
      }
    }
  }

  // ---- a condition on the syntax ----

  /**
   * Only bound names are used, unary plus only on operands known not to be BigInts, templates only on
   * known primitives, and a literal zero is written "0".
   */
  predicate Guarded(e: Expr, names: set<string>) {
    match e
    case BigLiteral(text, magnitude) => magnitude == 0 ==> text == "0"
    case Ident(name) => name in names
    case Template(parts) => AllKnown(parts) && AllGuarded(parts, names)
    case Unary(op, arg) => Guarded(arg, names) && (op == Plus ==> KindOf(arg) == Some(NonBigInt))
    case Binary(_, left, right) => Guarded(left, names) && Guarded(right, names)
    case Cond(test, cons, alt) => Guarded(test, names) && Guarded(cons, names) && Guarded(alt, names)
    case Sequence(exprs) => AllGuarded(exprs, names)
    case Paren(inner) => Guarded(inner, names)
    case _ => true
  }

  predicate AllGuarded(exprs: Exprs, names: set<string>) {
    exprs.Cons? ==> Guarded(exprs.head, names) && AllGuarded(exprs.tail, names)
  }

  ghost predicate Binds(h: Host, names: set<string>) {
    forall name | name in names :: h.binding(name).Bound?
  }

  /** A guarded literal whose text is not "0" is not zero. */
  lemma {:induction false} GuardedLiteral(h: Host, e: Expr, names: set<string>)
    requires Guarded(e, names) && AsBigLiteral(e).Some? && AsBigLiteral(e).value != "0"
    ensures Eval(h, e).Done? && Eval(h, e).value != Big(0)
    decreases e
  {
    if e.Paren? { GuardedLiteral(h, e.inner, names); }
  }

  /** An accepted division of BigInts in a guarded expression is not by zero. */
  lemma GuardedDivision(h: Host, left: Expr, right: Expr, names: set<string>)
    requires Guarded(right, names) && ResultKind(Div, KindOf(left), KindOf(right), right).Some?
    requires Eval(h, left).Done? && Eval(h, left).value.Big?
    ensures Eval(h, right) != Done(Big(0))
  {
    KindSound(h, left);
    if KindOf(left).value == BigInt { GuardedLiteral(h, right, names); }
  }

  lemma {:induction false} GuardedNeverTrips(h: Host, e: Expr, names: set<string>)
    requires IsPure(e) && Guarded(e, names) && Binds(h, names)
    ensures !Trips(h, e)
    decreases e
  {
    match e
    case Template(parts) => GuardedParts(h, parts, names);
    case Unary(op, arg) =>
      GuardedNeverTrips(h, arg, names);
      if op == Plus && Eval(h, arg).Done? { KindSound(h, arg); }
    case Binary(op, left, right) =>
      GuardedNeverTrips(h, left, names);
      GuardedNeverTrips(h, right, names);
      if op == Div && Eval(h, left).Done? && Eval(h, left).value.Big? { GuardedDivision(h, left, right, names); }
    case Cond(test, cons, alt) =>
      GuardedNeverTrips(h, test, names);
      GuardedNeverTrips(h, cons, names);
      GuardedNeverTrips(h, alt, names);
    case Sequence(exprs) => GuardedElements(h, exprs, names);
    case Paren(inner) => GuardedNeverTrips(h, inner, names);
    case _ =>
  }

  lemma {:induction false} GuardedParts(h: Host, parts: Exprs, names: set<string>)
    requires AllPure(parts) && AllGuarded(parts, names) && AllKnown(parts) && Binds(h, names)
    ensures !PartTrips(h, parts)
    decreases parts
  {
    if parts.Cons? {
      GuardedNeverTrips(h, parts.head, names);
      if Eval(h, parts.head).Done? { KindSound(h, parts.head); }
      GuardedParts(h, parts.tail, names);
    }
  }

  lemma {:induction false} GuardedElements(h: Host, exprs: Exprs, names: set<string>)
    requires AllPure(exprs) && AllGuarded(exprs, names) && Binds(h, names)
    ensures !ElementTrips(h, exprs)
    decreases exprs
  {
    if exprs.Cons? {
      GuardedNeverTrips(h, exprs.head, names);
      GuardedElements(h, exprs.tail, names);
    }
  }

  /** What the judgement is for: an expression judged pure evaluates without failing. */
  lemma PureNeverFails(h: Host, e: Expr, names: set<string>)
    requires IsPure(e) && Guarded(e, names) && Binds(h, names)
    ensures Eval(h, e).Done?
  {
    PureFailsIff(h, e);
    GuardedNeverTrips(h, e, names);
  }

  /** Unary plus on an operand known to be a BigInt is judged pure whenever the operand is, and always fails. */
  lemma PlusOnBigIntFails(h: Host, arg: Expr)
    requires KindOf(arg) == Some(BigInt)
    ensures IsPure(Unary(Plus, arg)) == IsPure(arg) && KindOf(Unary(Plus, arg)).None?
    ensures Eval(h, Unary(Plus, arg)).Fails?
  {
    if Eval(h, arg).Done? {
      KindSound(h, arg);
    }
  }

  /** `+1n` is judged pure and throws. */
  lemma PureCanThrow(h: Host)
    ensures exists e :: IsPure(e) && Eval(h, e).Fails?
  {
    var e := Unary(Plus, BigLiteral("1", 1));
    assert IsPure(e) && Eval(h, BigLiteral("1", 1)) == Done(Big(1));
    assert Eval(h, e).Fails?;
  }

  /**
   * A name is judged pure and throws exactly while it has no value; under `typeof` it throws exactly
   * while it is declared but not initialised.
   */
  lemma NameThrowsIff(h: Host, name: string)
    ensures IsPure(Ident(name)) && IsPure(Unary(TypeOf, Paren(Ident(name))))
    ensures Eval(h, Ident(name)).Fails? <==> h.binding(name) in {Unresolvable, Uninitialized}
    ensures Eval(h, Unary(TypeOf, Paren(Ident(name)))).Fails? <==> h.binding(name) == Uninitialized
  {
    assert NamesUnresolvable(h, Paren(Ident(name))) <==> NamesUnresolvable(h, Ident(name));
    assert Eval(h, Paren(Ident(name))) == Eval(h, Ident(name));
  }

  /** So is a template over a name bound to an object, whose conversion may run code. */
  lemma TemplateCanRunCode(h: Host, name: string)
    requires h.binding(name).Bound? && h.binding(name).value.Opaque?
    ensures exists e :: IsPure(e) && Eval(h, e).Fails?
  {
    var e := Template(Cons(Ident(name), Nil));
    assert IsPure(Ident(name)) && AllPure(Nil);
    assert AllPure(Cons(Ident(name), Nil)) && IsPure(e);
    assert Eval(h, Ident(name)) == Done(h.binding(name).value);
    assert Eval(h, e).Fails?;
  }
}
